/** The per-sender spam guard (src/chat/conversation.rs). */
module SpamGuard {
  import opened Basics
  import opened SlidingWindows
  import opened Levenshtein

  type Content = seq<byte>
  datatype Remembered = Remembered(at: Time, content: Content)
  datatype SenderState = SenderState(timestamps: seq<Time>, contents: seq<Remembered>, cooldownUntil: Option<Time>)
  datatype Config = Config(msgsPerWindow: nat, windowSecs: nat, cooldownSecs: nat) {
    function Window(): nat { windowSecs * SECOND }
    function Cooldown(): nat { cooldownSecs * SECOND }
  }
  type Guard = map<string, SenderState>

  const FRESH := SenderState([], [], None)
  const REMEMBERED_MAX: nat := 16

  function StateOf(g: Guard, sender: string): SenderState {
    if sender in g then g[sender] else FRESH
  }

  function Retained(q: seq<Remembered>, now: Time): seq<Remembered> {
    if q == [] then []
    else (if now - q[0].at <= MINUTE then [q[0]] else []) + Retained(q[1..], now)
  }

  predicate Repeats(q: seq<Remembered>, content: Content) {
    exists i :: 0 <= i < |q| && NearDuplicate(q[i].content, content)
  }

  function Remember(q: seq<Remembered>, r: Remembered): seq<Remembered> {
    if |q| + 1 > REMEMBERED_MAX then (q + [r])[1..] else q + [r]
  }

  predicate InCooldown(s: SenderState, now: Time) {
    s.cooldownUntil.Some? && now < s.cooldownUntil.value
  }

  /** What one event does to its sender's state. */
  function Recorded(s: SenderState, content: Content, cfg: Config, now: Time): SenderState {
    if InCooldown(s, now) then s
    else
      var timestamps := DropOld(s.timestamps + [now], now, cfg.Window());
      var kept := Retained(s.contents, now);
      var suppress := |timestamps| > cfg.msgsPerWindow || Repeats(kept, content);
      SenderState(timestamps, Remember(kept, Remembered(now, content)),
        if suppress then Some(now + cfg.Cooldown()) else None)
  }

  /** The verdict on one event: true when the sender is, or now goes, into cooldown. */
  predicate Suppressed(s: SenderState, content: Content, cfg: Config, now: Time) {
    || InCooldown(s, now)
    || |DropOld(s.timestamps + [now], now, cfg.Window())| > cfg.msgsPerWindow
    || Repeats(Retained(s.contents, now), content)
  }

  /** What a prune does to one sender's state. */
  function Pruned(s: SenderState, now: Time): SenderState {
    SenderState(DropOld(s.timestamps, now, MINUTE), Retained(s.contents, now),
      if InCooldown(s, now) then s.cooldownUntil else None)
  }

  function PrunedGuard(g: Guard, now: Time): Guard {
    map sender | sender in g && Pruned(g[sender], now) != FRESH :: Pruned(g[sender], now)
  }

  // ----- The guard as the program keeps it -----

  /** Compares a message with the remembered ones, oldest first, up to the first that is nearly the same. */
  method RepeatsAny(kept: seq<Remembered>, content: Content) returns (nearDuplicate: bool)
    ensures nearDuplicate == Repeats(kept, content)
  {
    for i := 0 to |kept|
      invariant forall k :: 0 <= k < i ==> !NearDuplicate(kept[k].content, content)
    {
      var ratio := LevenshteinRatio(kept[i].content, content);
      RatioLaws(kept[i].content, content);
      if ratio.AtLeast(9) { return true; }
    }
    return false;
  }

  /** Pops times off the front while they are older than `age`. */
  method DrainFront(q: seq<Time>, now: Time, age: nat) returns (rest: seq<Time>)
    ensures rest == DropOld(q, now, age)
  {
    rest := q;
    while rest != [] && now - rest[0] > age
      invariant DropOld(rest, now, age) == DropOld(q, now, age)
      decreases |rest|
    {
      rest := rest[1..];
    }
  }

  /** Keeps the messages of the last closed minute, in order. */
  method RetainRecent(q: seq<Remembered>, now: Time) returns (kept: seq<Remembered>)
    ensures kept == Retained(q, now)
  {
    kept := [];
    for i := 0 to |q|
      invariant kept + Retained(q[i..], now) == Retained(q, now)
    {
      assert q[i..][1..] == q[i + 1..];
      ghost var before := kept;
      if now - q[i].at <= MINUTE { kept := kept + [q[i]]; }
      assert kept + Retained(q[i + 1..], now) == before + Retained(q[i..], now);
    }
  }

  class SpamGuard {
    var bySender: Guard

    constructor ()
      ensures bySender == map[]
    {
      bySender := map[];
    }

    method Record(sender: string, content: Content, cfg: Config, now: Time) returns (suppressed: bool)
      modifies this
      ensures suppressed == Suppressed(StateOf(old(bySender), sender), content, cfg, now)
      ensures bySender == old(bySender)[sender := Recorded(StateOf(old(bySender), sender), content, cfg, now)]
    {
      var s := StateOf(bySender, sender);
      bySender := bySender[sender := s];
      if s.cooldownUntil.Some? && now < s.cooldownUntil.value {
        return true;
      }
      var timestamps := DrainFront(s.timestamps + [now], now, cfg.Window());
      var kept := RetainRecent(s.contents, now);
      var nearDuplicate := RepeatsAny(kept, content);
      var contents := kept + [Remembered(now, content)];
      if |contents| > REMEMBERED_MAX {
        contents := contents[1..];
      }
      var overRate := |timestamps| > cfg.msgsPerWindow;
      suppressed := overRate || nearDuplicate;
      var until := if suppressed then Some(now + cfg.Cooldown()) else None;
      bySender := bySender[sender := SenderState(timestamps, contents, until)];
    }

    method IsSuppressed(sender: string, now: Time) returns (suppressed: bool)
      ensures suppressed == InCooldown(StateOf(bySender, sender), now)
    {
      suppressed := sender in bySender && InCooldown(bySender[sender], now);
    }

    /** Ages every sender's queues, and drops exactly the senders with nothing left. */
    method Prune(now: Time)
      modifies this
      ensures bySender == PrunedGuard(old(bySender), now)
    {
      var kept: Guard := map[];
      var left := bySender.Keys;
      while left != {}
        invariant bySender == old(bySender) && left <= bySender.Keys
        invariant forall k :: k in kept <==> k in bySender && k !in left && Pruned(bySender[k], now) != FRESH
        invariant forall k :: k in kept ==> kept[k] == Pruned(bySender[k], now)
        decreases |left|
      {
        var sender :| sender in left;
        var s := bySender[sender];
        var timestamps := DrainFront(s.timestamps, now, MINUTE);
        var contents := RetainRecent(s.contents, now);
        var until := if s.cooldownUntil.Some? && now >= s.cooldownUntil.value then None else s.cooldownUntil;
        if until.Some? || timestamps != [] || contents != [] {
          kept := kept[sender := SenderState(timestamps, contents, until)];
        }
        left := left - {sender};
      }
      bySender := kept;
    }
  }

  // ----- Runs -----

  datatype Event = Message(sender: string, content: Content, cfg: Config, at: Time) | PruneAt(at: Time)

  function Step(g: Guard, e: Event): Guard {
    match e
    case Message(sender, content, cfg, at) => g[sender := Recorded(StateOf(g, sender), content, cfg, at)]
    case PruneAt(at) => PrunedGuard(g, at)
  }

  function Verdicts(g: Guard, events: seq<Event>): seq<bool>
    decreases |events|
  {
    if events == [] then []
    else
      var e := events[0];
      (if e.Message? then [Suppressed(StateOf(g, e.sender), e.content, e.cfg, e.at)] else []) +
        Verdicts(Step(g, e), events[1..])
  }

  function MessagesOnly(events: seq<Event>): seq<Event> {
    if events == [] then [] else (if events[0].Message? then [events[0]] else []) + MessagesOnly(events[1..])
  }

  predicate Monotone(events: seq<Event>, from: Time) {
    events == [] || (from <= events[0].at && Monotone(events[1..], events[0].at))
  }

  predicate NarrowWindows(events: seq<Event>) {
    forall i :: 0 <= i < |events| && events[i].Message? ==> events[i].cfg.windowSecs <= 60
  }

  // ----- Pruning changes no verdict -----

  lemma {:induction false} RetainedTwice(q: seq<Remembered>, earlier: Time, now: Time)
    requires earlier <= now
    ensures Retained(Retained(q, earlier), now) == Retained(q, now)
  {
    if q != [] {
      var rest := Retained(q[1..], earlier);
      RetainedTwice(q[1..], earlier, now);
      assert ([q[0]] + rest)[1..] == rest && [] + rest == rest && [] + Retained(q[1..], now) == Retained(q[1..], now);
    }
  }

  lemma PrunedTwice(s: SenderState, earlier: Time, now: Time)
    requires earlier <= now
    ensures Pruned(Pruned(s, earlier), now) == Pruned(s, now)
  {
    DropOldTwice(s.timestamps, earlier, MINUTE, now, MINUTE);
    RetainedTwice(s.contents, earlier, now);
  }

  lemma {:induction false} DropOldLast(q: seq<Time>, earlier: Time, wide: nat, now: Time, narrow: nat)
    requires earlier <= now && narrow <= wide
    ensures DropOld(DropOld(q, earlier, wide) + [now], now, narrow) == DropOld(q + [now], now, narrow)
  {
    if q != [] && earlier - q[0] > wide {
      assert (q + [now])[1..] == q[1..] + [now];
      DropOldLast(q[1..], earlier, wide, now, narrow);
    }
  }

  /** Recording an event on a pruned state gives the verdict, and up to pruning the state, of the unpruned one. */
  lemma PrunedStateRecordsAlike(s: SenderState, earlier: Time, content: Content, cfg: Config, now: Time)
    requires earlier <= now && cfg.windowSecs <= 60
    ensures Suppressed(Pruned(s, earlier), content, cfg, now) == Suppressed(s, content, cfg, now)
    ensures Pruned(Recorded(Pruned(s, earlier), content, cfg, now), now) == Pruned(Recorded(s, content, cfg, now), now)
  {
    DropOldLast(s.timestamps, earlier, MINUTE, now, cfg.Window());
    RetainedTwice(s.contents, earlier, now);
    PrunedTwice(s, earlier, now);
  }

  /** Two guards that pruning makes equal. */
  ghost predicate Alike(g: Guard, h: Guard, now: Time) {
    forall sender :: Pruned(StateOf(g, sender), now) == Pruned(StateOf(h, sender), now)
  }

  lemma PruneKeepsAlike(g: Guard, now: Time)
    ensures Alike(PrunedGuard(g, now), g, now)
  {
    forall sender ensures Pruned(StateOf(PrunedGuard(g, now), sender), now) == Pruned(StateOf(g, sender), now) {
      PrunedTwice(StateOf(g, sender), now, now);
    }
  }

  lemma AlikeLater(g: Guard, h: Guard, earlier: Time, now: Time)
    requires Alike(g, h, earlier) && earlier <= now
    ensures Alike(g, h, now)
  {
    forall sender ensures Pruned(StateOf(g, sender), now) == Pruned(StateOf(h, sender), now) {
      PrunedTwice(StateOf(g, sender), earlier, now);
      PrunedTwice(StateOf(h, sender), earlier, now);
    }
  }

  lemma MessageKeepsAlike(g: Guard, h: Guard, e: Event)
    requires e.Message? && e.cfg.windowSecs <= 60 && Alike(g, h, e.at)
    ensures Suppressed(StateOf(g, e.sender), e.content, e.cfg, e.at) ==
      Suppressed(StateOf(h, e.sender), e.content, e.cfg, e.at)
    ensures Alike(Step(g, e), Step(h, e), e.at)
  {
    PrunedStateRecordsAlike(StateOf(g, e.sender), e.at, e.content, e.cfg, e.at);
    PrunedStateRecordsAlike(StateOf(h, e.sender), e.at, e.content, e.cfg, e.at);
    assert forall sender :: sender != e.sender ==> StateOf(Step(g, e), sender) == StateOf(g, sender);
    assert forall sender :: sender != e.sender ==> StateOf(Step(h, e), sender) == StateOf(h, sender);
  }

  lemma {:induction false} AlikeGuardsDecideAlike(g: Guard, h: Guard, events: seq<Event>, from: Time)
    requires Monotone(events, from) && NarrowWindows(events) && Alike(g, h, from)
    ensures Verdicts(g, events) == Verdicts(h, MessagesOnly(events))
    decreases |events|
  {
    if events != [] {
      var e, rest := events[0], events[1..];
      AlikeLater(g, h, from, e.at);
      assert NarrowWindows(rest) by { assert forall i :: 0 <= i < |rest| ==> rest[i] == events[i + 1]; }
      if e.Message? {
        MessageKeepsAlike(g, h, e);
        AlikeGuardsDecideAlike(Step(g, e), Step(h, e), rest, e.at);
        assert ([e] + MessagesOnly(rest))[1..] == MessagesOnly(rest);
      } else {
        PruneKeepsAlike(g, e.at);
        AlikeGuardsDecideAlike(Step(g, e), h, rest, e.at);
        assert [] + MessagesOnly(rest) == MessagesOnly(rest);
      }
    }
  }

  /** Prunes may be interleaved anywhere: no verdict of any run changes while windows are at most sixty seconds. */
  lemma PruningIsTransparent(g: Guard, events: seq<Event>, from: Time)
    requires Monotone(events, from) && NarrowWindows(events)
    ensures Verdicts(g, events) == Verdicts(g, MessagesOnly(events))
  {
    AlikeGuardsDecideAlike(g, g, events, from);
  }

  // ----- The cap on one sender -----

  predicate NoPrunes(events: seq<Event>) { forall i :: 0 <= i < |events| ==> events[i].Message? }

  predicate SameConfig(events: seq<Event>, cfg: Config) {
    forall i :: 0 <= i < |events| && events[i].Message? ==> events[i].cfg == cfg
  }

  /** When the events of one sender got through. */
  function Through(g: Guard, e: Event, sender: string): seq<Time> {
    if e.Message? && e.sender == sender && !Suppressed(StateOf(g, sender), e.content, e.cfg, e.at) then [e.at] else []
  }

  function Accepted(g: Guard, events: seq<Event>, sender: string): seq<Time>
    decreases |events|
  {
    if events == [] then []
    else Through(g, events[0], sender) + Accepted(Step(g, events[0]), events[1..], sender)
  }

  /** Every accepted time since `since` is still among the recorded ones. */
  ghost predicate Covers(recorded: seq<Time>, accepted: seq<Time>, since: Time) {
    forall from: Time :: from >= since ==> CountSince(accepted, from) <= CountSince(recorded, from)
  }

  lemma DropKeepsCover(recorded: seq<Time>, accepted: seq<Time>, now: Time, age: nat)
    requires Covers(recorded, accepted, now - age)
    ensures Covers(DropOld(recorded, now, age), accepted, now - age)
  {
    forall from: Time | from >= now - age
      ensures CountSince(accepted, from) <= CountSince(DropOld(recorded, now, age), from)
    {
      CountSinceDropOld(recorded, now, age, from);
    }
  }

  lemma PushKeepsCover(recorded: seq<Time>, accepted: seq<Time>, now: Time, since: Time, both: bool)
    requires Covers(recorded, accepted, since)
    ensures Covers(recorded + [now], if both then accepted + [now] else accepted, since)
  {
    forall from: Time | from >= since
      ensures CountSince(if both then accepted + [now] else accepted, from) <= CountSince(recorded + [now], from)
    {
      CountSinceAppend(recorded, now, from);
      CountSinceAppend(accepted, now, from);
    }
  }

  /** One message of the sender keeps the cover, and is let through only where the accepted times stay lawful. */
  lemma MessageKeepsCover(s: SenderState, accepted: seq<Time>, content: Content, cfg: Config, now: Time)
    requires Covers(s.timestamps, accepted, now - cfg.Window()) && Lawful(accepted, cfg.Window(), cfg.msgsPerWindow)
    requires forall i :: 0 <= i < |accepted| ==> accepted[i] <= now
    ensures
      var accepted' := if Suppressed(s, content, cfg, now) then accepted else accepted + [now];
      && Covers(Recorded(s, content, cfg, now).timestamps, accepted', now - cfg.Window())
      && Lawful(accepted', cfg.Window(), cfg.msgsPerWindow)
  {
    var since, through := now - cfg.Window(), !Suppressed(s, content, cfg, now);
    if !InCooldown(s, now) {
      PushKeepsCover(s.timestamps, accepted, now, since, through);
      DropKeepsCover(s.timestamps + [now], if through then accepted + [now] else accepted, now, cfg.Window());
      if through {
        assert (accepted + [now])[..|accepted|] == accepted;
        assert CountSince(accepted + [now], since) <=
          CountSince(DropOld(s.timestamps + [now], now, cfg.Window()), since);
      }
    }
  }

  lemma PruneKeepsCover(g: Guard, sender: string, accepted: seq<Time>, cfg: Config, now: Time)
    requires Covers(StateOf(g, sender).timestamps, accepted, now - cfg.Window()) && cfg.windowSecs <= 60
    ensures Covers(StateOf(PrunedGuard(g, now), sender).timestamps, accepted, now - cfg.Window())
  {
    var recorded := StateOf(g, sender).timestamps;
    assert StateOf(PrunedGuard(g, now), sender).timestamps == DropOld(recorded, now, MINUTE);
    forall from: Time | from >= now - cfg.Window()
      ensures CountSince(accepted, from) <= CountSince(DropOld(recorded, now, MINUTE), from)
    {
      CountSinceDropOld(recorded, now, MINUTE, from);
    }
  }

  lemma RestIsWellTimed(events: seq<Event>, cfg: Config)
    requires events != [] && SameConfig(events, cfg)
    ensures SameConfig(events[1..], cfg) && (events[0].Message? ==> events[0].cfg == cfg)
    ensures NoPrunes(events) ==> NoPrunes(events[1..]) && events[0].Message?
  {
    assert forall i :: 0 <= i < |events[1..]| ==> events[1..][i] == events[i + 1];
  }

  ghost predicate LawfulFor(accepted: seq<Time>, cfg: Config) { Lawful(accepted, cfg.Window(), cfg.msgsPerWindow) }

  /** What the recorded times of a sender owe the times let through so far. */
  ghost predicate Capped(g: Guard, sender: string, cfg: Config, accepted: seq<Time>, clock: Time) {
    && (forall i :: 0 <= i < |accepted| ==> accepted[i] <= clock)
    && Covers(StateOf(g, sender).timestamps, accepted, clock - cfg.Window())
    && LawfulFor(accepted, cfg)
  }

  lemma StepKeepsCap(g: Guard, e: Event, clock: Time, sender: string, cfg: Config, accepted: seq<Time>)
    requires Capped(g, sender, cfg, accepted, clock) && clock <= e.at
    requires if e.Message? then e.cfg == cfg else cfg.windowSecs <= 60
    ensures Capped(Step(g, e), sender, cfg, accepted + Through(g, e, sender), e.at)
  {
    assert accepted + [] == accepted;
    if e.PruneAt? {
      PruneKeepsCover(g, sender, accepted, cfg, e.at);
    } else if e.sender == sender {
      MessageKeepsCover(StateOf(g, sender), accepted, e.content, cfg, e.at);
    } else {
      assert StateOf(Step(g, e), sender) == StateOf(g, sender);
    }
  }

  lemma AcceptedFirst(g: Guard, events: seq<Event>, sender: string, before: seq<Time>)
    returns (g': Guard, times: seq<Time>)
    requires events != []
    ensures g' == Step(g, events[0]) && times == before + Through(g, events[0], sender)
    ensures before + Accepted(g, events, sender) == times + Accepted(g', events[1..], sender)
  {
    g' := Step(g, events[0]);
    var first, later := Through(g, events[0], sender), Accepted(g', events[1..], sender);
    times := before + first;
    AcceptedIs(g, events, sender);
    Associative(before, first, later);
  }

  lemma AcceptedIs(g: Guard, events: seq<Event>, sender: string)
    requires events != []
    ensures Accepted(g, events, sender) ==
      Through(g, events[0], sender) + Accepted(Step(g, events[0]), events[1..], sender)
  {
  }

  lemma Associative(a: seq<Time>, b: seq<Time>, c: seq<Time>)
    ensures a + (b + c) == (a + b) + c
  {
  }

  lemma {:induction false} AcceptedStaysLawful(g: Guard, events: seq<Event>, clock: Time, sender: string, cfg: Config,
        accepted: seq<Time>)
    requires Monotone(events, clock) && SameConfig(events, cfg) && (cfg.windowSecs <= 60 || NoPrunes(events))
    requires Capped(g, sender, cfg, accepted, clock)
    ensures LawfulFor(accepted + Accepted(g, events, sender), cfg)
    decreases |events|
  {
    if events == [] {
      assert accepted + [] == accepted;
    } else {
      RestIsWellTimed(events, cfg);
      StepKeepsCap(g, events[0], clock, sender, cfg, accepted);
      var g', times := AcceptedFirst(g, events, sender, accepted);
      AcceptedStaysLawful(g', events[1..], events[0].at, sender, cfg, times);
    }
  }

  lemma NothingAcceptedYet(g: Guard, sender: string, cfg: Config, clock: Time)
    ensures Capped(g, sender, cfg, [], clock)
  {
    assert forall from: Time :: CountSince([], from) == 0;
  }

  /** At most `msgsPerWindow` events of a sender get through in any closed window, over any run without prunes, and with
      prunes anywhere while windows are at most sixty seconds. */
  lemma EveryWindowIsCapped(events: seq<Event>, start: Time, sender: string, cfg: Config, from: Time)
    requires Monotone(events, start) && SameConfig(events, cfg) && (cfg.windowSecs <= 60 || NoPrunes(events))
    ensures CountIn(Accepted(map[], events, sender), from, from + cfg.Window()) <= cfg.msgsPerWindow
  {
    var accepted := Accepted(map[], events, sender);
    assert LawfulFor(accepted, cfg) by {
      NothingAcceptedYet(map[], sender, cfg, start);
      AcceptedStaysLawful(map[], events, start, sender, cfg, []);
      assert [] + accepted == accepted;
    }
    ClosedWindowBound(accepted, cfg.Window(), cfg.msgsPerWindow, from);
  }

  // ----- Where pruning does change a verdict -----

  /** A burst of one-letter messages, no two of any seventeen in a row alike. */
  function Letter(k: nat): Content { [(k % 17) as byte] }
  function Burst(sender: string, cfg: Config, from: nat, to: nat): seq<Event>
    requires from <= to
    decreases if from <= to then to - from else 0
  {
    if from == to then [] else [Message(sender, Letter(from), cfg, 0)] + Burst(sender, cfg, from + 1, to)
  }

  function AfterBurst(k: nat): SenderState {
    var n := if k <= REMEMBERED_MAX then k else REMEMBERED_MAX;
    SenderState(seq(k, i => 0), seq(n, i requires 0 <= i < n => Remembered(0, Letter(k - n + i))), None)
  }

  lemma {:induction false} AllRetained(q: seq<Remembered>, now: Time)
    requires forall i :: 0 <= i < |q| ==> now - q[i].at <= MINUTE
    ensures Retained(q, now) == q
  {
    if q != [] { AllRetained(q[1..], now); }
  }

  lemma LettersDiffer(j: nat, k: nat)
    requires j < k <= j + REMEMBERED_MAX
    ensures !NearDuplicate(Letter(j), Letter(k))
  {
    assert j % 17 != k % 17;
    assert !CaseEqual(Letter(j), Letter(k)) by { assert Letter(j)[0] != Letter(k)[0]; }
    ZeroIffCaseEqual(Letter(j), Letter(k));
  }

  lemma BurstTimes(k: nat, age: nat)
    ensures AfterBurst(k).timestamps + [0] == AfterBurst(k + 1).timestamps
    ensures DropOld(AfterBurst(k + 1).timestamps, 0, age) == AfterBurst(k + 1).timestamps
  {
    var q := AfterBurst(k + 1).timestamps;
    assert q[0] == 0;
  }

  lemma BurstIsRemembered(k: nat)
    ensures Retained(AfterBurst(k).contents, 0) == AfterBurst(k).contents
    ensures Remember(AfterBurst(k).contents, Remembered(0, Letter(k))) == AfterBurst(k + 1).contents
  {
    AllRetained(AfterBurst(k).contents, 0);
  }

  lemma BurstNeverRepeats(k: nat)
    ensures !Repeats(AfterBurst(k).contents, Letter(k))
  {
    var q := AfterBurst(k).contents;
    forall i | 0 <= i < |q| ensures !NearDuplicate(q[i].content, Letter(k)) {
      LettersDiffer(k - |q| + i, k);
    }
  }

  lemma BurstStep(k: nat, cfg: Config)
    requires k < cfg.msgsPerWindow
    ensures !Suppressed(AfterBurst(k), Letter(k), cfg, 0)
    ensures Recorded(AfterBurst(k), Letter(k), cfg, 0) == AfterBurst(k + 1)
  {
    BurstTimes(k, cfg.Window());
    BurstIsRemembered(k);
    BurstNeverRepeats(k);
  }

  lemma FirstVerdict(g: Guard, e: Event, rest: seq<Event>)
    requires e.Message?
    ensures Verdicts(g, [e] + rest) ==
      [Suppressed(StateOf(g, e.sender), e.content, e.cfg, e.at)] + Verdicts(Step(g, e), rest)
  {
    assert ([e] + rest)[1..] == rest;
  }

  lemma FirstVerdictOf(g: Guard, e: Event, rest: seq<Event>, tail: seq<Event>)
    requires e.Message?
    ensures Verdicts(g, ([e] + rest) + tail) ==
      [Suppressed(StateOf(g, e.sender), e.content, e.cfg, e.at)] + Verdicts(Step(g, e), rest + tail)
  {
    assert ([e] + rest) + tail == [e] + (rest + tail);
    FirstVerdict(g, e, rest + tail);
  }

  lemma SameFirstVerdict(g: Guard, e: Event, rest: seq<Event>, t1: seq<Event>, t2: seq<Event>) returns (g': Guard)
    requires e.Message?
    ensures g' == Step(g, e)
    ensures Verdicts(g, ([e] + rest) + t1) == Verdicts(g, ([e] + rest) + t2) ==>
      Verdicts(g', rest + t1) == Verdicts(g', rest + t2)
  {
    g' := Step(g, e);
    var first := [Suppressed(StateOf(g, e.sender), e.content, e.cfg, e.at)];
    FirstVerdictOf(g, e, rest, t1);
    FirstVerdictOf(g, e, rest, t2);
    SameTails(first, Verdicts(g', rest + t1), Verdicts(g', rest + t2));
  }

  lemma SameTails(first: seq<bool>, v1: seq<bool>, v2: seq<bool>)
    ensures first + v1 == first + v2 ==> v1 == v2
  {
    assert (first + v1)[|first|..] == v1 && (first + v2)[|first|..] == v2;
  }

  ghost predicate SameVerdicts(g: Guard, burst: seq<Event>, t1: seq<Event>, t2: seq<Event>) {
    Verdicts(g, burst + t1) == Verdicts(g, burst + t2)
  }

  lemma BurstHead(sender: string, cfg: Config, k: nat, g: Guard, t1: seq<Event>, t2: seq<Event>) returns (g': Guard)
    requires k < cfg.msgsPerWindow && StateOf(g, sender) == AfterBurst(k)
    ensures StateOf(g', sender) == AfterBurst(k + 1)
    ensures SameVerdicts(g, Burst(sender, cfg, k, cfg.msgsPerWindow), t1, t2) ==>
      SameVerdicts(g', Burst(sender, cfg, k + 1, cfg.msgsPerWindow), t1, t2)
  {
    BurstStep(k, cfg);
    g' := SameFirstVerdict(g, Message(sender, Letter(k), cfg, 0), Burst(sender, cfg, k + 1, cfg.msgsPerWindow), t1, t2);
  }

  /** After the burst the guard still tells apart whatever two runs told the whole runs apart. */
  lemma {:induction false} AfterTheBurst(sender: string, cfg: Config, k: nat, g: Guard, t1: seq<Event>,
        t2: seq<Event>)
    returns (g': Guard)
    requires k <= cfg.msgsPerWindow && StateOf(g, sender) == AfterBurst(k)
    ensures StateOf(g', sender) == AfterBurst(cfg.msgsPerWindow)
    ensures SameVerdicts(g, Burst(sender, cfg, k, cfg.msgsPerWindow), t1, t2) ==> Verdicts(g', t1) == Verdicts(g', t2)
    decreases cfg.msgsPerWindow - k
  {
    if k == cfg.msgsPerWindow {
      g' := g;
      assert [] + t1 == t1 && [] + t2 == t2;
    } else {
      g' := BurstHead(sender, cfg, k, g, t1, t2);
      g' := AfterTheBurst(sender, cfg, k + 1, g', t1, t2);
    }
  }

  lemma {:induction false} BurstIsMessages(sender: string, cfg: Config, k: nat, n: nat, tail: seq<Event>)
    requires k <= n
    ensures MessagesOnly(Burst(sender, cfg, k, n) + tail) == Burst(sender, cfg, k, n) + MessagesOnly(tail)
    ensures SameConfig(tail, cfg) ==> SameConfig(Burst(sender, cfg, k, n) + tail, cfg)
    ensures Monotone(tail, 0) ==> Monotone(Burst(sender, cfg, k, n) + tail, 0)
    decreases n - k
  {
    var burst := Burst(sender, cfg, k, n);
    if k == n {
      assert burst + tail == tail;
      assert burst + MessagesOnly(tail) == MessagesOnly(tail);
    } else {
      BurstIsMessages(sender, cfg, k + 1, n, tail);
      assert (burst + tail)[1..] == Burst(sender, cfg, k + 1, n) + tail;
    }
  }

  lemma {:induction false} AllExpired(q: seq<Time>, now: Time, age: nat)
    requires forall i :: 0 <= i < |q| ==> now - q[i] > age
    ensures DropOld(q, now, age) == []
  {
    if q != [] { AllExpired(q[1..], now, age); }
  }

  lemma {:induction false} NoneRetained(q: seq<Remembered>, now: Time)
    requires forall i :: 0 <= i < |q| ==> now - q[i].at > MINUTE
    ensures Retained(q, now) == []
  {
    if q != [] { NoneRetained(q[1..], now); }
  }

  const LATE: Time := 61 * SECOND

  /** One message late in a wide window: over the rate for the full history, not over it for the pruned one. */
  lemma LateMessage(sender: string, cfg: Config, g: Guard)
    requires StateOf(g, sender) == AfterBurst(cfg.msgsPerWindow) && cfg.windowSecs >= 61 && cfg.msgsPerWindow > 0
    ensures Suppressed(StateOf(g, sender), [], cfg, LATE)
    ensures !Suppressed(StateOf(PrunedGuard(g, LATE), sender), [], cfg, LATE)
  {
    var s := StateOf(g, sender);
    AllExpired(s.timestamps, LATE, MINUTE);
    NoneRetained(s.contents, LATE);
    assert StateOf(PrunedGuard(g, LATE), sender) == FRESH;
    assert [] + [LATE] == [LATE];
    assert (s.timestamps + [LATE])[0] == 0;
    assert DropOld(s.timestamps + [LATE], LATE, cfg.Window()) == s.timestamps + [LATE];
  }

  lemma LateVerdicts(g: Guard, late: Event)
    requires late.Message? && late.at == LATE
    ensures Verdicts(g, [late]) == [Suppressed(StateOf(g, late.sender), late.content, late.cfg, LATE)]
    ensures Verdicts(g, [PruneAt(LATE), late]) == Verdicts(PrunedGuard(g, LATE), [late])
  {
    assert [late] == [late] + [];
    FirstVerdict(g, late, []);
    assert [PruneAt(LATE), late][1..] == [late];
  }

  lemma LateMessagesOnly(late: Event)
    requires late.Message?
    ensures MessagesOnly([PruneAt(LATE), late]) == [late]
  {
    var none: seq<Event> := [];
    assert [late][1..] == none && MessagesOnly([late]) == [late] + MessagesOnly(none);
    assert [PruneAt(LATE), late][1..] == [late] && MessagesOnly([PruneAt(LATE), late]) == none + MessagesOnly([late]);
  }

  lemma WidePruneShows(sender: string, cfg: Config) returns (events: seq<Event>)
    requires cfg.windowSecs >= 61 && cfg.msgsPerWindow > 0
    ensures Monotone(events, 0) && SameConfig(events, cfg)
    ensures Verdicts(map[], events) != Verdicts(map[], MessagesOnly(events))
  {
    var late := Message(sender, [], cfg, LATE);
    var tail := [PruneAt(LATE), late];
    events := Burst(sender, cfg, 0, cfg.msgsPerWindow) + tail;
    LateMessagesOnly(late);
    BurstIsMessages(sender, cfg, 0, cfg.msgsPerWindow, tail);
    assert Monotone(tail, 0) by { assert tail[1..] == [late]; }
    assert StateOf(map[], sender) == AfterBurst(0);
    var g := AfterTheBurst(sender, cfg, 0, map[], tail, [late]);
    LateMessage(sender, cfg, g);
    LateVerdicts(g, late);
    LateVerdicts(PrunedGuard(g, LATE), late);
  }

  lemma {:induction false} NewestStays(q: seq<Time>, now: Time, age: nat)
    ensures DropOld(q + [now], now, age) != []
  {
    if q != [] && now - q[0] > age {
      assert (q + [now])[1..] == q[1..] + [now];
      NewestStays(q[1..], now, age);
    }
  }

  /** With a cap of zero every verdict is "suppressed", pruned or not. */
  lemma {:induction false} ZeroCapSuppressesAll(g: Guard, h: Guard, events: seq<Event>, cfg: Config)
    requires SameConfig(events, cfg) && cfg.msgsPerWindow == 0
    ensures Verdicts(g, events) == Verdicts(h, MessagesOnly(events))
    decreases |events|
  {
    if events != [] {
      var e, rest := events[0], events[1..];
      RestIsWellTimed(events, cfg);
      if e.Message? {
        NewestStays(StateOf(g, e.sender).timestamps, e.at, cfg.Window());
        NewestStays(StateOf(h, e.sender).timestamps, e.at, cfg.Window());
        ZeroCapSuppressesAll(Step(g, e), Step(h, e), rest, cfg);
        assert ([e] + MessagesOnly(rest))[1..] == MessagesOnly(rest);
      } else {
        ZeroCapSuppressesAll(Step(g, e), h, rest, cfg);
        assert [] + MessagesOnly(rest) == MessagesOnly(rest);
      }
    }
  }

  ghost predicate PruneIsHarmless(cfg: Config) {
    forall events, start | Monotone(events, start) && SameConfig(events, cfg) ::
      Verdicts(map[], events) == Verdicts(map[], MessagesOnly(events))
  }

  /** Exactly the configurations under which interleaved prunes never change a verdict of a run from a new guard. */
  lemma PruneIsHarmlessIff(cfg: Config)
    ensures PruneIsHarmless(cfg) <==> cfg.windowSecs <= 60 || cfg.msgsPerWindow == 0
  {
    if cfg.windowSecs <= 60 || cfg.msgsPerWindow == 0 {
      forall events, start | Monotone(events, start) && SameConfig(events, cfg)
        ensures Verdicts(map[], events) == Verdicts(map[], MessagesOnly(events))
      {
        if cfg.windowSecs <= 60 {
          PruningIsTransparent(map[], events, start);
        } else {
          ZeroCapSuppressesAll(map[], map[], events, cfg);
        }
      }
    } else {
      var events := WidePruneShows("", cfg);
    }
  }

  // ----- Exactly when the cap holds with prunes -----

  ghost predicate GetThrough(g: Guard, events: seq<Event>, sender: string, times: seq<Time>) {
    Accepted(g, events, sender) == times
  }

  lemma OneGetsThrough(sender: string, cfg: Config, k: nat, g: Guard, rest: seq<Event>, times: seq<Time>)
    returns (g': Guard)
    requires k < cfg.msgsPerWindow && StateOf(g, sender) == AfterBurst(k)
    ensures StateOf(g', sender) == AfterBurst(k + 1)
    ensures GetThrough(g', rest, sender, times) ==>
      GetThrough(g, [Message(sender, Letter(k), cfg, 0)] + rest, sender, [0] + times)
  {
    var e := Message(sender, Letter(k), cfg, 0);
    BurstStep(k, cfg);
    AcceptedOf(g, e, rest, sender);
    g' := Step(g, e);
  }

  function Zeros(n: nat): (q: seq<Time>)
    ensures |q| == n && forall i :: 0 <= i < n ==> q[i] == 0
  {
    seq(n, i => 0)
  }

  /** The same of the burst and a tail. */
  ghost predicate BurstThrough(g: Guard, sender: string, cfg: Config, k: nat, tail: seq<Event>, times: seq<Time>)
    requires k <= cfg.msgsPerWindow
  {
    GetThrough(g, Burst(sender, cfg, k, cfg.msgsPerWindow) + tail, sender, Zeros(cfg.msgsPerWindow - k) + times)
  }

  lemma BurstThroughFirst(sender: string, cfg: Config, k: nat, g: Guard, tail: seq<Event>, times: seq<Time>)
    returns (g': Guard)
    requires k < cfg.msgsPerWindow && StateOf(g, sender) == AfterBurst(k)
    ensures StateOf(g', sender) == AfterBurst(k + 1)
    ensures BurstThrough(g', sender, cfg, k + 1, tail, times) ==> BurstThrough(g, sender, cfg, k, tail, times)
  {
    var n := cfg.msgsPerWindow;
    var e, ts := Message(sender, Letter(k), cfg, 0), Zeros(n - k - 1) + times;
    var rest := Burst(sender, cfg, k + 1, n) + tail;
    g' := OneGetsThrough(sender, cfg, k, g, rest, ts);
    SameRunGetsThrough(g, sender, [e] + rest, [0] + ts, Burst(sender, cfg, k, n) + tail, Zeros(n - k) + times) by {
      BurstFirst(sender, cfg, k, n, tail);
      ZerosFirst(n - k, times);
    }
  }

  lemma SameRunGetsThrough(g: Guard, sender: string, e1: seq<Event>, t1: seq<Time>, e2: seq<Event>, t2: seq<Time>)
    requires e1 == e2 && t1 == t2
    ensures GetThrough(g, e1, sender, t1) ==> GetThrough(g, e2, sender, t2)
  {
  }

  lemma {:induction false} BurstGetsThrough(sender: string, cfg: Config, k: nat, g: Guard, tail: seq<Event>,
        times: seq<Time>)
    returns (g': Guard)
    requires k <= cfg.msgsPerWindow && StateOf(g, sender) == AfterBurst(k)
    ensures StateOf(g', sender) == AfterBurst(cfg.msgsPerWindow)
    ensures GetThrough(g', tail, sender, times) ==> BurstThrough(g, sender, cfg, k, tail, times)
    decreases cfg.msgsPerWindow - k
  {
    if k == cfg.msgsPerWindow {
      g' := g;
      BurstFirst(sender, cfg, k, k, tail);
      ZerosFirst(0, times);
    } else {
      var g1 := BurstThroughFirst(sender, cfg, k, g, tail, times);
      g' := BurstGetsThrough(sender, cfg, k + 1, g1, tail, times);
    }
  }

  lemma BurstFirst(sender: string, cfg: Config, k: nat, n: nat, tail: seq<Event>)
    requires k <= n
    ensures Burst(sender, cfg, k, n) + tail ==
      if k == n then tail else [Message(sender, Letter(k), cfg, 0)] + (Burst(sender, cfg, k + 1, n) + tail)
  {
  }

  lemma ZerosFirst(n: nat, q: seq<Time>)
    ensures Zeros(n) + q == if n == 0 then q else [0] + (Zeros(n - 1) + q)
  {
  }

  lemma AcceptedOf(g: Guard, e: Event, rest: seq<Event>, sender: string)
    ensures Accepted(g, [e] + rest, sender) == Through(g, e, sender) + Accepted(Step(g, e), rest, sender)
  {
    assert ([e] + rest)[1..] == rest;
  }

  lemma {:induction false} CountInAll(q: seq<Time>, from: Time, to: Time)
    requires forall i :: 0 <= i < |q| ==> from <= q[i] <= to
    ensures CountIn(q, from, to) == |q|
  {
    if q != [] { CountInAll(q[..|q| - 1], from, to); }
  }

  lemma LateGetsThrough(sender: string, cfg: Config, g: Guard)
    requires StateOf(g, sender) == AfterBurst(cfg.msgsPerWindow) && cfg.windowSecs >= 61 && cfg.msgsPerWindow > 0
    ensures GetThrough(g, [PruneAt(LATE), Message(sender, [], cfg, LATE)], sender, [LATE])
  {
    var late := Message(sender, [], cfg, LATE);
    var none: seq<Event> := [];
    LateMessage(sender, cfg, g);
    assert [PruneAt(LATE), late] == [PruneAt(LATE)] + [late] && [late] == [late] + none;
    AcceptedOf(g, PruneAt(LATE), [late], sender);
    AcceptedOf(PrunedGuard(g, LATE), late, none, sender);
  }

  function WideTail(sender: string, cfg: Config): seq<Event> { [PruneAt(LATE), Message(sender, [], cfg, LATE)] }

  lemma WideTailIsWellTimed(sender: string, cfg: Config)
    ensures Monotone(WideTail(sender, cfg), 0) && SameConfig(WideTail(sender, cfg), cfg)
  {
    var tail := WideTail(sender, cfg);
    assert tail[1..] == [tail[1]];
  }

  lemma OneMoreThanZeros(n: nat, to: Time)
    requires to >= LATE
    ensures CountIn(Zeros(n) + [LATE], 0, to) == n + 1
  {
    CountInAll(Zeros(n) + [LATE], 0, to);
  }

  lemma WideRunGetsThrough(sender: string, cfg: Config, g: Guard)
    requires StateOf(g, sender) == AfterBurst(0) && cfg.windowSecs >= 61 && cfg.msgsPerWindow > 0
    ensures
      var cap := cfg.msgsPerWindow;
      GetThrough(g, Burst(sender, cfg, 0, cap) + WideTail(sender, cfg), sender, Zeros(cap) + [LATE])
  {
    var g' := BurstGetsThrough(sender, cfg, 0, g, WideTail(sender, cfg), [LATE]);
    LateGetsThrough(sender, cfg, g');
  }

  /** A run with one prune that lets one message more than the cap into one closed window. */
  lemma WidePruneOverruns(sender: string, cfg: Config) returns (events: seq<Event>)
    requires cfg.windowSecs >= 61 && cfg.msgsPerWindow > 0
    ensures Monotone(events, 0) && SameConfig(events, cfg)
    ensures CountIn(Accepted(map[], events, sender), 0, cfg.Window()) == cfg.msgsPerWindow + 1
  {
    events := Burst(sender, cfg, 0, cfg.msgsPerWindow) + WideTail(sender, cfg);
    WideTailIsWellTimed(sender, cfg);
    BurstIsMessages(sender, cfg, 0, cfg.msgsPerWindow, WideTail(sender, cfg));
    WideRunGetsThrough(sender, cfg, map[]);
    OneMoreThanZeros(cfg.msgsPerWindow, cfg.Window());
  }

  lemma {:induction false} ZeroCapAcceptsNone(g: Guard, events: seq<Event>, sender: string, cfg: Config)
    requires SameConfig(events, cfg) && cfg.msgsPerWindow == 0
    ensures Accepted(g, events, sender) == []
    decreases |events|
  {
    if events != [] {
      RestIsWellTimed(events, cfg);
      NewestStays(StateOf(g, sender).timestamps, events[0].at, cfg.Window());
      ZeroCapAcceptsNone(Step(g, events[0]), events[1..], sender, cfg);
    }
  }

  /** The run lets at most the cap of the sender's events into the closed window from `from` on. */
  predicate CappedFrom(events: seq<Event>, sender: string, cfg: Config, from: Time) {
    CountIn(Accepted(map[], events, sender), from, from + cfg.Window()) <= cfg.msgsPerWindow
  }

  /** No run of the configuration, with prunes anywhere, lets more than the cap of a sender's events into any window. */
  ghost predicate AlwaysCapped(cfg: Config) {
    forall events, start, sender, from :: Monotone(events, start) && SameConfig(events, cfg) ==>
      CappedFrom(events, sender, cfg, from)
  }

  lemma AlwaysCappedIff(cfg: Config)
    ensures AlwaysCapped(cfg) <==> cfg.windowSecs <= 60 || cfg.msgsPerWindow == 0
  {
    if cfg.windowSecs <= 60 || cfg.msgsPerWindow == 0 {
      forall events, start, sender, from
        ensures Monotone(events, start) && SameConfig(events, cfg) ==> CappedFrom(events, sender, cfg, from)
      {
        if Monotone(events, start) && SameConfig(events, cfg) {
          if cfg.windowSecs <= 60 {
            EveryWindowIsCapped(events, start, sender, cfg, from);
          } else {
            ZeroCapAcceptsNone(map[], events, sender, cfg);
          }
        }
      }
    } else {
      var events := WidePruneOverruns("", cfg);
      assert Monotone(events, 0) && !CappedFrom(events, "", cfg, 0);
    }
  }
}
