/** What the spam guard's verdicts mean over a run: a cool-down lasts its time, a near copy is noticed, and nothing is
    suppressed without a reason in what was heard. */
module SpamGuardMeaning {
  import opened Basics
  import opened SlidingWindows
  import opened Levenshtein
  import opened SpamGuard

  predicate From(e: Event, sender: string) { e.Message? && e.sender == sender }

  predicate Refused(g: Guard, e: Event)
    requires e.Message?
  {
    Suppressed(StateOf(g, e.sender), e.content, e.cfg, e.at)
  }

  function After(g: Guard, events: seq<Event>): Guard {
    if events == [] then g else Step(After(g, events[..|events| - 1]), events[|events| - 1])
  }

  /** When the messages of one sender came, whatever became of them. */
  function Heard(events: seq<Event>, sender: string): seq<Time> {
    if events == [] then []
    else
      var e := events[|events| - 1];
      Heard(events[..|events| - 1], sender) + if From(e, sender) then [e.at] else []
  }

  ghost predicate Ordered(events: seq<Event>) {
    forall i, j :: 0 <= i < j < |events| ==> events[i].at <= events[j].at
  }

  // ----- A cool-down lasts -----

  lemma CoolStep(g: Guard, e: Event, sender: string, until: Time, now: Time)
    requires StateOf(g, sender).cooldownUntil == Some(until) && e.at < until && e.at <= now
    ensures StateOf(Step(g, e), sender).cooldownUntil == Some(until)
    ensures Pruned(StateOf(Step(g, e), sender), now) == Pruned(StateOf(g, sender), now)
  {
    if e.PruneAt? { PrunedTwice(StateOf(g, sender), e.at, now); }
  }

  lemma {:induction false} CoolRun(g: Guard, events: seq<Event>, sender: string, until: Time, now: Time)
    requires StateOf(g, sender).cooldownUntil == Some(until)
    requires forall i :: 0 <= i < |events| ==> events[i].at < until && events[i].at <= now
    ensures StateOf(After(g, events), sender).cooldownUntil == Some(until)
    ensures Pruned(StateOf(After(g, events), sender), now) == Pruned(StateOf(g, sender), now)
  {
    if events != [] {
      CoolRun(g, events[..|events| - 1], sender, until, now);
      CoolStep(After(g, events[..|events| - 1]), events[|events| - 1], sender, until, now);
    }
  }

  /** Through these events the sender is refused, is to be let in again at `until`, and leaves no trace in the queues,
      seen from `now`. */
  ghost predicate Held(g: Guard, events: seq<Event>, sender: string, until: Time, now: Time) {
    var s := StateOf(After(g, events), sender);
    && (forall i :: 0 <= i < |events| && From(events[i], sender) ==> Refused(After(g, events[..i]), events[i]))
    && s.cooldownUntil == Some(until) && !InCooldown(s, until)
    && Pruned(s, now) == Pruned(StateOf(g, sender), now)
  }

  lemma CoolRunHolds(g: Guard, events: seq<Event>, sender: string, until: Time, now: Time)
    requires StateOf(g, sender).cooldownUntil == Some(until)
    requires forall i :: 0 <= i < |events| ==> events[i].at < until && events[i].at <= now
    ensures Held(g, events, sender, until, now)
  {
    CoolRun(g, events, sender, until, now);
    forall i | 0 <= i < |events| && From(events[i], sender) ensures Refused(After(g, events[..i]), events[i]) {
      CoolRun(g, events[..i], sender, until, now);
    }
  }

  /** The message starts a cool-down. */
  ghost predicate Triggers(g: Guard, sender: string, content: Content, cfg: Config, at: Time) {
    !InCooldown(StateOf(g, sender), at) && Suppressed(StateOf(g, sender), content, cfg, at)
  }

  lemma CooldownStarts(g: Guard, sender: string, content: Content, cfg: Config, at: Time)
    requires Triggers(g, sender, content, cfg, at)
    ensures StateOf(Step(g, Message(sender, content, cfg, at)), sender).cooldownUntil == Some(at + cfg.Cooldown())
  {
  }

  /** The sender of a suppressed message is suppressed for the whole cool-down, whatever comes and is pruned meanwhile
      and under whatever configuration. Nothing heard meanwhile prolongs it or counts later. */
  lemma CooldownLasts(g: Guard, sender: string, content: Content, cfg: Config, at: Time, events: seq<Event>, now: Time)
    requires Triggers(g, sender, content, cfg, at)
    requires forall i :: 0 <= i < |events| ==> events[i].at < at + cfg.Cooldown() && events[i].at <= now
    ensures Held(Step(g, Message(sender, content, cfg, at)), events, sender, at + cfg.Cooldown(), now)
  {
    CooldownStarts(g, sender, content, cfg, at);
    CoolRunHolds(Step(g, Message(sender, content, cfg, at)), events, sender, at + cfg.Cooldown(), now);
  }

  // ----- A near copy is noticed -----

  /** The message `r` is remembered, with at most `later` messages behind it. */
  ghost predicate Recalls(q: seq<Remembered>, r: Remembered, later: nat) {
    exists i :: 0 <= i < |q| && q[i] == r && |q| - 1 - i <= later
  }

  /** Keeping the recent ones keeps a recent one, no farther from the end. */
  lemma {:induction false} RetainedAt(q: seq<Remembered>, i: nat, now: Time) returns (j: nat)
    requires i < |q| && now - q[i].at <= MINUTE
    ensures j < |Retained(q, now)| && Retained(q, now)[j] == q[i] && |Retained(q, now)| - j <= |q| - i
  {
    var kept := Retained(q[1..], now);
    if i == 0 {
      RetainedIsShorter(q[1..], now);
      assert Retained(q, now) == [q[0]] + kept;
      j := 0;
    } else {
      j := RetainedAt(q[1..], i - 1, now);
      if now - q[0].at <= MINUTE {
        assert Retained(q, now) == [q[0]] + kept;
        j := j + 1;
      } else {
        assert Retained(q, now) == kept;
      }
    }
  }

  lemma RetainedRecalls(q: seq<Remembered>, r: Remembered, later: nat, now: Time)
    requires Recalls(q, r, later) && now - r.at <= MINUTE
    ensures Recalls(Retained(q, now), r, later)
  {
    var i :| 0 <= i < |q| && q[i] == r && |q| - 1 - i <= later;
    var j := RetainedAt(q, i, now);
  }

  lemma {:induction false} RetainedIsShorter(q: seq<Remembered>, now: Time)
    ensures |Retained(q, now)| <= |q|
    ensures forall r :: r in Retained(q, now) ==> r in q && now - r.at <= MINUTE
  {
    if q != [] { RetainedIsShorter(q[1..], now); }
  }

  lemma RememberRecalls(q: seq<Remembered>, r: Remembered, later: nat, newest: Remembered)
    requires Recalls(q, r, later) && later + 1 < REMEMBERED_MAX
    ensures Recalls(Remember(q, newest), r, later + 1)
  {
    var i :| 0 <= i < |q| && q[i] == r && |q| - 1 - i <= later;
    assert (q + [newest])[i] == r;
    if |q| + 1 > REMEMBERED_MAX { assert Remember(q, newest)[i - 1] == r; }
  }

  lemma RecallsStep(g: Guard, e: Event, sender: string, r: Remembered, later: nat)
    requires Recalls(StateOf(g, sender).contents, r, later) && e.at - r.at <= MINUTE
    requires From(e, sender) ==> later + 1 < REMEMBERED_MAX
    ensures Recalls(StateOf(Step(g, e), sender).contents, r, if From(e, sender) then later + 1 else later)
  {
    var q := StateOf(g, sender).contents;
    RetainedRecalls(q, r, later, e.at);
    if From(e, sender) && !InCooldown(StateOf(g, sender), e.at) {
      RememberRecalls(Retained(q, e.at), r, later, Remembered(e.at, e.content));
    }
  }

  lemma {:induction false} RecallsRun(g: Guard, events: seq<Event>, sender: string, r: Remembered)
    requires Recalls(StateOf(g, sender).contents, r, 0) && |Heard(events, sender)| < REMEMBERED_MAX
    requires forall i :: 0 <= i < |events| ==> events[i].at - r.at <= MINUTE
    ensures Recalls(StateOf(After(g, events), sender).contents, r, |Heard(events, sender)|)
  {
    if events != [] {
      var before, e := events[..|events| - 1], events[|events| - 1];
      RecallsRun(g, before, sender, r);
      RecallsStep(After(g, before), e, sender, r, |Heard(before, sender)|);
    }
  }

  /** A near copy of a message heard in the last minute is suppressed, unless sixteen more of the sender's messages came
      between the two. */
  lemma NearCopyIsSuppressed(g: Guard, first: Event, between: seq<Event>, again: Event)
    requires first.Message? && !InCooldown(StateOf(g, first.sender), first.at) && From(again, first.sender)
    requires NearDuplicate(first.content, again.content)
    requires |Heard(between, first.sender)| < REMEMBERED_MAX
    requires forall i :: 0 <= i < |between| ==> between[i].at - first.at <= MINUTE
    requires again.at - first.at <= MINUTE
    ensures Refused(After(Step(g, first), between), again)
  {
    var sender, r := first.sender, Remembered(first.at, first.content);
    var kept := Retained(StateOf(g, sender).contents, first.at);
    assert (kept + [r])[|kept|] == r;
    assert Recalls(StateOf(Step(g, first), sender).contents, r, 0);
    RecallsRun(Step(g, first), between, sender, r);
    var q := StateOf(After(Step(g, first), between), sender).contents;
    RetainedRecalls(q, r, |Heard(between, sender)|, again.at);
  }

  // ----- Nothing is suppressed without a reason -----

  ghost predicate SortedTo(q: seq<Time>, clock: Time) {
    && (forall i :: 0 <= i < |q| ==> q[i] <= clock)
    && forall i, j :: 0 <= i < j < |q| ==> q[i] <= q[j]
  }

  lemma {:induction false} AllSince(q: seq<Time>, from: Time)
    requires forall i :: 0 <= i < |q| ==> q[i] >= from
    ensures CountSince(q, from) == |q|
  {
    if q != [] { AllSince(q[1..], from); }
  }

  /** A sorted queue keeps exactly the times within reach. */
  lemma {:induction false} DropOldCounts(q: seq<Time>, clock: Time, now: Time, age: nat)
    requires SortedTo(q, clock)
    ensures |DropOld(q, now, age)| == CountSince(q, now - age) && SortedTo(DropOld(q, now, age), clock)
  {
    if q != [] && now - q[0] > age { DropOldCounts(q[1..], clock, now, age); } else { AllSince(q, now - age); }
  }

  /** An earlier message of the sender was suppressed, and the time `at` falls within its cool-down. */
  ghost predicate CoolingDown(events: seq<Event>, sender: string, at: Time) {
    exists i :: 0 <= i < |events| && From(events[i], sender) && Refused(After(map[], events[..i]), events[i]) &&
      at < events[i].at + events[i].cfg.Cooldown()
  }

  /** The sender said nearly this within the last minute. */
  ghost predicate SaidBefore(events: seq<Event>, sender: string, content: Content, at: Time) {
    exists i :: 0 <= i < |events| && From(events[i], sender) && at - events[i].at <= MINUTE &&
      NearDuplicate(events[i].content, content)
  }

  ghost predicate IsHeard(events: seq<Event>, sender: string, r: Remembered) {
    exists i :: 0 <= i < |events| && From(events[i], sender) && r == Remembered(events[i].at, events[i].content)
  }

  /** Everything in a sender's state comes from what was heard. */
  ghost predicate Backed(s: SenderState, events: seq<Event>, sender: string, clock: Time) {
    && SortedTo(s.timestamps, clock)
    && (forall from: Time :: CountSince(s.timestamps, from) <= CountSince(Heard(events, sender), from))
    && (forall r :: r in s.contents ==> IsHeard(events, sender, r))
    && (forall at: Time :: s.cooldownUntil.Some? && at < s.cooldownUntil.value ==> CoolingDown(events, sender, at))
  }

  lemma {:induction false} CountSinceDropOldAtMost(q: seq<Time>, now: Time, age: nat, from: Time)
    ensures CountSince(DropOld(q, now, age), from) <= CountSince(q, from)
  {
    if q != [] && now - q[0] > age { CountSinceDropOldAtMost(q[1..], now, age, from); }
  }

  lemma HeardMore(events: seq<Event>, e: Event, sender: string)
    ensures Heard(events + [e], sender) == Heard(events, sender) + if From(e, sender) then [e.at] else []
    ensures forall r :: IsHeard(events, sender, r) ==> IsHeard(events + [e], sender, r)
    ensures forall at :: CoolingDown(events, sender, at) ==> CoolingDown(events + [e], sender, at)
  {
    assert (events + [e])[..|events|] == events;
    forall r | IsHeard(events, sender, r) ensures IsHeard(events + [e], sender, r) {
      var i :| 0 <= i < |events| && From(events[i], sender) && r == Remembered(events[i].at, events[i].content);
      assert (events + [e])[i] == events[i];
    }
    forall at | CoolingDown(events, sender, at) ensures CoolingDown(events + [e], sender, at) {
      var i :| 0 <= i < |events| && From(events[i], sender) && Refused(After(map[], events[..i]), events[i]) &&
        at < events[i].at + events[i].cfg.Cooldown();
      assert (events + [e])[i] == events[i] && (events + [e])[..i] == events[..i];
    }
  }

  /** Forgetting keeps it so. */
  lemma PrunedIsBacked(s: SenderState, events: seq<Event>, sender: string, clock: Time, now: Time)
    requires Backed(s, events, sender, clock)
    ensures Backed(Pruned(s, now), events, sender, clock)
  {
    DropOldCounts(s.timestamps, clock, now, MINUTE);
    RetainedIsShorter(s.contents, now);
    forall from: Time
      ensures CountSince(DropOld(s.timestamps, now, MINUTE), from) <= CountSince(Heard(events, sender), from)
    {
      CountSinceDropOldAtMost(s.timestamps, now, MINUTE, from);
    }
  }

  lemma LaterIsBacked(s: SenderState, events: seq<Event>, e: Event, sender: string, clock: Time)
    requires Backed(s, events, sender, clock) && clock <= e.at
    ensures Backed(s, events + [e], sender, e.at)
  {
    HeardMore(events, e, sender);
    forall from: Time ensures CountSince(s.timestamps, from) <= CountSince(Heard(events + [e], sender), from) {
      if From(e, sender) { CountSinceAppend(Heard(events, sender), e.at, from); } else {
        assert Heard(events, sender) + [] == Heard(events, sender);
      }
    }
  }

  lemma RecordedTimesAreBacked(q: seq<Time>, clock: Time, now: Time, age: nat, heard: seq<Time>)
    requires SortedTo(q, clock) && clock <= now
    requires forall from: Time :: CountSince(q, from) <= CountSince(heard, from)
    ensures SortedTo(DropOld(q + [now], now, age), now)
    ensures forall from: Time :: CountSince(DropOld(q + [now], now, age), from) <= CountSince(heard + [now], from)
  {
    DropOldCounts(q + [now], now, now, age);
    forall from: Time ensures CountSince(DropOld(q + [now], now, age), from) <= CountSince(heard + [now], from) {
      CountSinceDropOldAtMost(q + [now], now, age, from);
      CountSinceAppend(q, now, from);
      CountSinceAppend(heard, now, from);
    }
  }

  lemma RecordedIsBacked(s: SenderState, events: seq<Event>, e: Event, clock: Time)
    requires e.Message? && Backed(s, events, e.sender, clock) && clock <= e.at
    requires s == StateOf(After(map[], events), e.sender) && !InCooldown(s, e.at)
    ensures Backed(Recorded(s, e.content, e.cfg, e.at), events + [e], e.sender, e.at)
  {
    var sender, s' := e.sender, Recorded(s, e.content, e.cfg, e.at);
    HeardMore(events, e, sender);
    RecordedTimesAreBacked(s.timestamps, clock, e.at, e.cfg.Window(), Heard(events, sender));
    RetainedIsShorter(s.contents, e.at);
    assert (events + [e])[|events|] == e && (events + [e])[..|events|] == events;
    assert IsHeard(events + [e], sender, Remembered(e.at, e.content));
    forall r | r in s'.contents ensures IsHeard(events + [e], sender, r) {
      assert r in Retained(s.contents, e.at) || r == Remembered(e.at, e.content);
    }
    forall at: Time | s'.cooldownUntil.Some? && at < s'.cooldownUntil.value
      ensures CoolingDown(events + [e], sender, at)
    {
      assert Refused(After(map[], events), e);
    }
  }

  lemma BackedLater(s: SenderState, events: seq<Event>, sender: string, earlier: Time, clock: Time)
    requires Backed(s, events, sender, earlier) && earlier <= clock
    ensures Backed(s, events, sender, clock)
  {
  }

  lemma StepIsBacked(before: seq<Event>, e: Event, sender: string)
    requires Backed(StateOf(After(map[], before), sender), before, sender, e.at)
    ensures Backed(StateOf(After(map[], before + [e]), sender), before + [e], sender, e.at)
  {
    var s := StateOf(After(map[], before), sender);
    assert (before + [e])[..|before|] == before;
    assert After(map[], before + [e]) == Step(After(map[], before), e);
    LaterIsBacked(s, before, e, sender, e.at);
    if e.PruneAt? {
      PrunedIsBacked(s, before + [e], sender, e.at, e.at);
    } else if e.sender == sender && !InCooldown(s, e.at) {
      RecordedIsBacked(s, before, e, e.at);
    }
  }

  lemma {:induction false} RunIsBacked(events: seq<Event>, sender: string, clock: Time)
    requires Ordered(events) && forall i :: 0 <= i < |events| ==> events[i].at <= clock
    ensures Backed(StateOf(After(map[], events), sender), events, sender, clock)
  {
    if events != [] {
      var before, e := events[..|events| - 1], events[|events| - 1];
      assert before + [e] == events;
      RunIsBacked(before, sender, e.at);
      StepIsBacked(before, e, sender);
      BackedLater(StateOf(After(map[], events), sender), events, sender, e.at, clock);
    }
  }

  lemma RepeatsSaid(s: SenderState, events: seq<Event>, sender: string, content: Content, clock: Time, now: Time)
    requires Backed(s, events, sender, clock) && Repeats(Retained(s.contents, now), content)
    ensures SaidBefore(events, sender, content, now)
  {
    RetainedIsShorter(s.contents, now);
    var kept := Retained(s.contents, now);
    var k :| 0 <= k < |kept| && NearDuplicate(kept[k].content, content);
    assert kept[k] in kept;
    assert IsHeard(events, sender, kept[k]);
    var i :| 0 <= i < |events| && From(events[i], sender) && kept[k] == Remembered(events[i].at, events[i].content);
  }

  lemma OverRateHeard(s: SenderState, events: seq<Event>, sender: string, now: Time, cfg: Config)
    requires Backed(s, events, sender, now)
    requires |DropOld(s.timestamps + [now], now, cfg.Window())| > cfg.msgsPerWindow
    ensures CountSince(Heard(events, sender), now - cfg.Window()) + 1 > cfg.msgsPerWindow
  {
    DropOldCounts(s.timestamps + [now], now, now, cfg.Window());
    CountSinceAppend(s.timestamps, now, now - cfg.Window());
  }

  /** A suppressed message is one of a sender cooling down from an earlier suppressed message, one more than the cap
      among the sender's messages of the closed window, or nearly what the sender said in the last minute. */
  lemma SuppressedForAReason(events: seq<Event>, sender: string, content: Content, cfg: Config, at: Time)
    requires Ordered(events) && forall i :: 0 <= i < |events| ==> events[i].at <= at
    requires Suppressed(StateOf(After(map[], events), sender), content, cfg, at)
    ensures
      || CoolingDown(events, sender, at)
      || CountSince(Heard(events, sender), at - cfg.Window()) + 1 > cfg.msgsPerWindow
      || SaidBefore(events, sender, content, at)
  {
    RunIsBacked(events, sender, at);
    var s := StateOf(After(map[], events), sender);
    if InCooldown(s, at) {
    } else if Repeats(Retained(s.contents, at), content) {
      RepeatsSaid(s, events, sender, content, at, at);
    } else {
      OverRateHeard(s, events, sender, at, cfg);
    }
  }
}
