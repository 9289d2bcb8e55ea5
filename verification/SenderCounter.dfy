/** The classifier's per-sender, per-minute ledger (src/chat/classifier.rs). */
module SenderCounter {
  import opened SlidingWindows

  type Ledger = map<string, seq<Time>>

  function Entries(l: Ledger, sender: string): seq<Time> {
    if sender in l then l[sender] else []
  }

  /** The entries of the closed minute that ends now. */
  function Recent(q: seq<Time>, now: Time): seq<Time> {
    if q == [] then [] else (if q[0] >= now - MINUTE then [q[0]] else []) + Recent(q[1..], now)
  }

  function Recorded(q: seq<Time>, cap: nat, now: Time): seq<Time> {
    if |Recent(q, now)| >= cap then Recent(q, now) else Recent(q, now) + [now]
  }

  function PrunedLedger(l: Ledger, now: Time): Ledger {
    map sender | sender in l && Recent(l[sender], now) != [] :: Recent(l[sender], now)
  }

  /** Keeps the entries of the last closed minute, in order. */
  method RetainRecent(q: seq<Time>, now: Time) returns (kept: seq<Time>)
    ensures kept == Recent(q, now)
  {
    kept := [];
    for i := 0 to |q|
      invariant kept + Recent(q[i..], now) == Recent(q, now)
    {
      assert q[i..][1..] == q[i + 1..];
      ghost var before := kept;
      if q[i] >= now - MINUTE { kept := kept + [q[i]]; }
      assert kept + Recent(q[i + 1..], now) == before + Recent(q[i..], now);
    }
  }

  class PerSenderCounter {
    var bySender: Ledger

    constructor ()
      ensures bySender == map[]
    {
      bySender := map[];
    }

    /** True when the call must be skipped. */
    method RecordAndCheck(sender: string, cap: nat, now: Time) returns (exhausted: bool)
      modifies this
      ensures exhausted == (CountSince(Entries(old(bySender), sender), now - MINUTE) >= cap)
      ensures bySender == old(bySender)[sender := Recorded(Entries(old(bySender), sender), cap, now)]
    {
      RecentCounts(Entries(bySender, sender), now);
      var entries := RetainRecent(Entries(bySender, sender), now);
      bySender := bySender[sender := entries];
      if |entries| >= cap {
        return true;
      }
      bySender := bySender[sender := entries + [now]];
      return false;
    }

    /** Cuts every sender to the last minute, and drops exactly the senders with nothing left. */
    method Prune(now: Time)
      modifies this
      ensures bySender == PrunedLedger(old(bySender), now)
    {
      var kept: Ledger := map[];
      var left := bySender.Keys;
      while left != {}
        invariant bySender == old(bySender) && left <= bySender.Keys
        invariant forall k :: k in kept <==> k in bySender && k !in left && Recent(bySender[k], now) != []
        invariant forall k :: k in kept ==> kept[k] == Recent(bySender[k], now)
        decreases |left|
      {
        var sender :| sender in left;
        var entries := RetainRecent(bySender[sender], now);
        if entries != [] { kept := kept[sender := entries]; }
        left := left - {sender};
      }
      bySender := kept;
    }
  }

  // ----- Runs, and the ledger that forgets nothing -----

  datatype Event = Call(sender: string, cap: nat, at: Time) | PruneAt(at: Time)

  function Step(l: Ledger, e: Event): Ledger {
    match e
    case Call(sender, cap, at) => l[sender := Recorded(Entries(l, sender), cap, at)]
    case PruneAt(at) => PrunedLedger(l, at)
  }

  function Verdicts(l: Ledger, events: seq<Event>): seq<bool>
    decreases |events|
  {
    if events == [] then []
    else
      var e := events[0];
      (if e.Call? then [|Recent(Entries(l, e.sender), e.at)| >= e.cap] else []) + Verdicts(Step(l, e), events[1..])
  }

  /** Refuses a call when the sender's whole history holds `cap` allowed calls of the last minute. */
  predicate Refuses(history: Ledger, e: Event)
    requires e.Call?
  {
    CountSince(Entries(history, e.sender), e.at - MINUTE) >= e.cap
  }

  function Remembering(history: Ledger, e: Event): Ledger {
    if e.Call? && !Refuses(history, e) then history[e.sender := Entries(history, e.sender) + [e.at]] else history
  }

  function FullVerdicts(history: Ledger, events: seq<Event>): seq<bool>
    decreases |events|
  {
    if events == [] then []
    else
      var e := events[0];
      (if e.Call? then [Refuses(history, e)] else []) + FullVerdicts(Remembering(history, e), events[1..])
  }

  function FullHistory(history: Ledger, events: seq<Event>): Ledger
    decreases |events|
  {
    if events == [] then history else FullHistory(Remembering(history, events[0]), events[1..])
  }

  predicate Monotone(events: seq<Event>, from: Time) {
    events == [] || (from <= events[0].at && Monotone(events[1..], events[0].at))
  }

  lemma {:induction false} RecentCounts(q: seq<Time>, now: Time)
    ensures |Recent(q, now)| == CountSince(q, now - MINUTE)
  {
    if q != [] { RecentCounts(q[1..], now); }
  }

  lemma {:induction false} RecentTwice(q: seq<Time>, earlier: Time, now: Time)
    requires earlier <= now
    ensures Recent(Recent(q, earlier), now) == Recent(q, now)
  {
    if q != [] {
      var rest := Recent(q[1..], earlier);
      RecentTwice(q[1..], earlier, now);
      assert ([q[0]] + rest)[1..] == rest && [] + rest == rest && [] + Recent(q[1..], now) == Recent(q[1..], now);
    }
  }

  lemma {:induction false} RecentAppend(q: seq<Time>, t: Time, now: Time)
    ensures Recent(q + [t], now) == Recent(q, now) + if t >= now - MINUTE then [t] else []
  {
    var none: seq<Time> := [];
    if q == [] {
      assert q + [t] == [t] && [t][1..] == none && Recent(none, now) == none;
    } else {
      RecentAppend(q[1..], t, now);
      RecentFirst(q, [], now);
      RecentFirst(q, [t], now);
      assert q + none == q && q[1..] + none == q[1..];
    }
  }

  lemma RecentFirst(q: seq<Time>, tail: seq<Time>, now: Time)
    requires q != []
    ensures Recent(q + tail, now) == (if q[0] >= now - MINUTE then [q[0]] else []) + Recent(q[1..] + tail, now)
  {
    assert (q + tail)[1..] == q[1..] + tail;
  }

  /** The kept entries are the history's, once both are cut to the last minute. */
  ghost predicate Faithful(l: Ledger, history: Ledger, now: Time) {
    forall sender :: Recent(Entries(l, sender), now) == Recent(Entries(history, sender), now)
  }

  lemma FaithfulLater(l: Ledger, history: Ledger, earlier: Time, now: Time)
    requires Faithful(l, history, earlier) && earlier <= now
    ensures Faithful(l, history, now)
  {
    forall sender ensures Recent(Entries(l, sender), now) == Recent(Entries(history, sender), now) {
      RecentTwice(Entries(l, sender), earlier, now);
      RecentTwice(Entries(history, sender), earlier, now);
    }
  }

  lemma RecordedIsFaithful(q: seq<Time>, full: seq<Time>, cap: nat, now: Time)
    requires Recent(q, now) == Recent(full, now)
    ensures Recent(Recorded(q, cap, now), now) ==
      Recent(if CountSince(full, now - MINUTE) >= cap then full else full + [now], now)
  {
    RecentCounts(full, now);
    RecentTwice(q, now, now);
    RecentAppend(Recent(q, now), now, now);
    RecentAppend(full, now, now);
  }

  function After(q: seq<Time>, e: Event, sender: string): seq<Time> {
    if e.PruneAt? then Recent(q, e.at) else if e.sender == sender then Recorded(q, e.cap, e.at) else q
  }

  lemma EntriesAfter(l: Ledger, e: Event, sender: string)
    ensures Entries(Step(l, e), sender) == After(Entries(l, sender), e, sender)
  {
    var none: seq<Time> := [];
    assert Recent(none, e.at) == none;
  }

  lemma EntriesRemembered(history: Ledger, e: Event, sender: string)
    ensures
      var q := Entries(history, sender);
      Entries(Remembering(history, e), sender) ==
        if e.Call? && e.sender == sender && CountSince(q, e.at - MINUTE) < e.cap then q + [e.at] else q
  {
  }

  lemma SenderIsFaithful(l: Ledger, history: Ledger, e: Event, sender: string)
    requires Recent(Entries(l, sender), e.at) == Recent(Entries(history, sender), e.at)
    ensures Recent(Entries(Step(l, e), sender), e.at) == Recent(Entries(Remembering(history, e), sender), e.at)
  {
    EntriesAfter(l, e, sender);
    EntriesRemembered(history, e, sender);
    if e.Call? && e.sender == sender {
      RecordedIsFaithful(Entries(l, sender), Entries(history, sender), e.cap, e.at);
    } else {
      RecentTwice(Entries(l, sender), e.at, e.at);
    }
  }

  lemma FaithfulRefusal(l: Ledger, history: Ledger, e: Event)
    requires e.Call? && Recent(Entries(l, e.sender), e.at) == Recent(Entries(history, e.sender), e.at)
    ensures |Recent(Entries(l, e.sender), e.at)| >= e.cap <==> Refuses(history, e)
  {
    RecentCounts(Entries(history, e.sender), e.at);
  }

  lemma StepIsFaithful(l: Ledger, history: Ledger, e: Event)
    requires Faithful(l, history, e.at)
    ensures Faithful(Step(l, e), Remembering(history, e), e.at)
  {
    var l', history' := Step(l, e), Remembering(history, e);
    forall sender ensures Recent(Entries(l', sender), e.at) == Recent(Entries(history', sender), e.at) {
      SenderIsFaithful(l, history, e, sender);
    }
  }

  lemma {:induction false} FaithfulRun(l: Ledger, history: Ledger, events: seq<Event>, clock: Time)
    requires Monotone(events, clock) && Faithful(l, history, clock)
    ensures Verdicts(l, events) == FullVerdicts(history, events)
    decreases |events|
  {
    if events != [] {
      FaithfulLater(l, history, clock, events[0].at);
      StepIsFaithful(l, history, events[0]);
      if events[0].Call? { FaithfulRefusal(l, history, events[0]); }
      FaithfulRun(Step(l, events[0]), Remembering(history, events[0]), events[1..], events[0].at);
    }
  }

  /** The pruned ledger refuses exactly the calls the unpruned history would, wherever the prunes fall. */
  lemma PruningIsTransparent(events: seq<Event>, start: Time)
    requires Monotone(events, start)
    ensures Verdicts(map[], events) == FullVerdicts(map[], events)
  {
    FaithfulRun(map[], map[], events, start);
  }

  ghost predicate WithinCap(history: Ledger, cap: nat, clock: Time) {
    forall sender :: Lawful(Entries(history, sender), MINUTE, cap) && NotAfter(Entries(history, sender), clock)
  }

  ghost predicate NotAfter(q: seq<Time>, clock: Time) { forall i :: 0 <= i < |q| ==> q[i] <= clock }

  lemma OneMoreIsLawful(q: seq<Time>, now: Time, cap: nat)
    requires Lawful(q, MINUTE, cap) && NotAfter(q, now) && CountSince(q, now - MINUTE) < cap
    ensures Lawful(q + [now], MINUTE, cap) && NotAfter(q + [now], now)
  {
    CountSinceAppend(q, now, now - MINUTE);
    assert (q + [now])[..|q|] == q;
  }

  lemma RememberingKeepsCap(history: Ledger, e: Event, cap: nat, clock: Time)
    requires WithinCap(history, cap, clock) && clock <= e.at && (e.Call? ==> e.cap <= cap)
    ensures WithinCap(Remembering(history, e), cap, e.at)
  {
    forall sender
      ensures var q := Entries(Remembering(history, e), sender); Lawful(q, MINUTE, cap) && NotAfter(q, e.at)
    {
      var q := Entries(history, sender);
      if e.Call? && e.sender == sender && !Refuses(history, e) {
        OneMoreIsLawful(q, e.at, cap);
      } else {
        assert Entries(Remembering(history, e), sender) == q;
      }
    }
  }

  lemma {:induction false} HistoryWithinCap(history: Ledger, events: seq<Event>, cap: nat, clock: Time)
    returns (end: Time)
    requires Monotone(events, clock) && WithinCap(history, cap, clock)
    requires forall i :: 0 <= i < |events| && events[i].Call? ==> events[i].cap <= cap
    ensures WithinCap(FullHistory(history, events), cap, end)
    decreases |events|
  {
    if events == [] {
      end := clock;
    } else {
      RememberingKeepsCap(history, events[0], cap, clock);
      assert forall i :: 0 <= i < |events[1..]| ==> events[1..][i] == events[i + 1];
      end := HistoryWithinCap(Remembering(history, events[0]), events[1..], cap, events[0].at);
    }
  }

  /** No closed minute of any run holds more than `cap` allowed calls of one sender. */
  lemma EveryMinuteIsCapped(events: seq<Event>, start: Time, cap: nat, sender: string, from: Time)
    requires Monotone(events, start)
    requires forall i :: 0 <= i < |events| && events[i].Call? ==> events[i].cap <= cap
    ensures CountIn(Entries(FullHistory(map[], events), sender), from, from + MINUTE) <= cap
  {
    var end := HistoryWithinCap(map[], events, cap, start);
    assert WithinCap(FullHistory(map[], events), cap, end);
    ClosedWindowBound(Entries(FullHistory(map[], events), sender), MINUTE, cap, from);
  }
}
