/** The sliding-window rate limiter (src/chat/client.rs, `RateLimiter`). Instants and durations are nanoseconds. */
module RateLimiter {

  type Time = int
  const U32_MAX: nat := 0xFFFF_FFFF
  const MILLI: nat := 1_000_000
  const WINDOW: nat := 60_000_000_000

  /** One accepted request: when, and the input tokens it was charged. */
  datatype Admission = Admission(at: Time, weight: nat)

  function SaturatingAdd(x: nat, y: nat): nat {
    if x + y > U32_MAX then U32_MAX else x + y
  }

  function SaturatingSub(x: nat, y: nat): nat {
    if x < y then 0 else x - y
  }

  function Sum(h: seq<Admission>): nat {
    if h == [] then 0 else Sum(h[..|h| - 1]) + h[|h| - 1].weight
  }

  /** How many entries at the front of a queue have left the window at `now`. */
  function Expired(q: seq<Admission>, now: Time): (k: nat)
    ensures k <= |q|
    ensures k < |q| ==> now - q[k].at < WINDOW
  {
    if q != [] && now - q[0].at >= WINDOW then 1 + Expired(q[1..], now) else 0
  }

  lemma {:induction false} ExpiredAreOld(q: seq<Admission>, now: Time)
    ensures forall i :: 0 <= i < Expired(q, now) ==> now - q[i].at >= WINDOW
  {
    if q != [] && now - q[0].at >= WINDOW {
      ExpiredAreOld(q[1..], now);
      forall i | 0 <= i < Expired(q, now) ensures now - q[i].at >= WINDOW {
        if i > 0 { assert q[i] == q[1..][i - 1]; }
      }
    }
  }

  function Recent(q: seq<Admission>, now: Time): seq<Admission> {
    q[Expired(q, now)..]
  }

  // ----- Loads over a window, counted on the whole history -----

  function Calls(h: seq<Admission>, from: Time, to: Time): nat {
    if h == [] then 0
    else Calls(h[..|h| - 1], from, to) + if from <= h[|h| - 1].at < to then 1 else 0
  }

  function Tokens(h: seq<Admission>, from: Time, to: Time): nat {
    if h == [] then 0
    else Tokens(h[..|h| - 1], from, to) + if from <= h[|h| - 1].at < to then h[|h| - 1].weight else 0
  }

  /** Both caps leave room for one more call at `now`, given everything admitted so far. */
  predicate Admissible(h: seq<Admission>, rpmMax: nat, itpmMax: nat, now: Time, weight: nat) {
    |Recent(h, now)| < rpmMax && Sum(Recent(h, now)) + weight <= itpmMax
  }

  /** Every admission was admissible when it was made, and the times never go back. */
  ghost predicate Lawful(h: seq<Admission>, rpmMax: nat, itpmMax: nat) {
    h == [] ||
    var before, last := h[..|h| - 1], h[|h| - 1];
    && Lawful(before, rpmMax, itpmMax)
    && Admissible(before, rpmMax, itpmMax, last.at, last.weight)
    && (before != [] ==> before[|before| - 1].at <= last.at)
  }

  lemma {:induction false} SumSuffix(h: seq<Admission>, k: nat)
    requires k <= |h|
    ensures Sum(h) == Sum(h[..k]) + Sum(h[k..])
    decreases |h|
  {
    if k == |h| {
      assert h[..k] == h && h[k..] == [];
    } else {
      SumSuffix(h[..|h| - 1], k);
      assert h[..|h| - 1][..k] == h[..k];
      assert h[k..][..|h[k..]| - 1] == h[..|h| - 1][k..];
    }
  }

  lemma {:induction false} ExpiredIs(q: seq<Admission>, now: Time, k: nat)
    requires k <= |q| && (forall i :: 0 <= i < k ==> now - q[i].at >= WINDOW)
    requires k < |q| ==> now - q[k].at < WINDOW
    ensures Expired(q, now) == k
  {
    if k > 0 { ExpiredIs(q[1..], now, k - 1); }
  }

  lemma RecentAgain(h: seq<Admission>, earlier: Time, now: Time)
    requires earlier <= now
    ensures Recent(Recent(h, earlier), now) == Recent(h, now)
  {
    var k := Expired(h, earlier);
    var e := Expired(h[k..], now);
    ExpiredAreOld(h, earlier);
    ExpiredAreOld(h[k..], now);
    forall i | 0 <= i < k + e ensures now - h[i].at >= WINDOW {
      if i < k { assert earlier - h[i].at >= WINDOW; } else { assert h[i] == h[k..][i - k]; }
    }
    assert k + e < |h| ==> h[k + e] == h[k..][e];
    ExpiredIs(h, now, k + e);
  }

  lemma RecentAppend(h: seq<Admission>, now: Time, weight: nat)
    ensures Recent(h + [Admission(now, weight)], now) == Recent(h, now) + [Admission(now, weight)]
  {
    ExpiredAreOld(h, now);
    ExpiredIs(h + [Admission(now, weight)], now, Expired(h, now));
  }

  lemma LawfulAppend(h: seq<Admission>, rpmMax: nat, itpmMax: nat, now: Time, weight: nat)
    requires Lawful(h, rpmMax, itpmMax) && Admissible(h, rpmMax, itpmMax, now, weight)
    requires h != [] ==> h[|h| - 1].at <= now
    ensures Lawful(h + [Admission(now, weight)], rpmMax, itpmMax)
  {
    assert (h + [Admission(now, weight)])[..|h|] == h;
  }

  lemma SumAppend(q: seq<Admission>, a: Admission)
    ensures Sum(q + [a]) == Sum(q) + a.weight
  {
    assert (q + [a])[..|q|] == q;
  }

  lemma TimesAppend(q: seq<Admission>, a: Admission)
    ensures Times(q + [a]) == Times(q) + [a.at]
  {
  }

  /** Nothing was admitted after this instant. */
  ghost predicate EndsBy(h: seq<Admission>, clock: Time) { h != [] ==> h[|h| - 1].at <= clock }

  /** What one more admission does to the history and to the queue of the last minute. */
  lemma OneMoreAdmission(h: seq<Admission>, rpmMax: nat, itpmMax: nat, now: Time, weight: nat)
    requires EndsBy(h, now)
    ensures
      var a := Admission(now, weight);
      && EndsBy(h + [a], now) && Recent(h + [a], now) == Recent(h, now) + [a]
      && Times(Recent(h, now) + [a]) == Times(Recent(h, now)) + [now]
      && Sum(Recent(h, now) + [a]) == Sum(Recent(h, now)) + weight
    ensures Lawful(h, rpmMax, itpmMax) && Admissible(h, rpmMax, itpmMax, now, weight) ==>
      Lawful(h + [Admission(now, weight)], rpmMax, itpmMax)
  {
    var a := Admission(now, weight);
    RecentAppend(h, now, weight);
    SumAppend(Recent(h, now), a);
    TimesAppend(Recent(h, now), a);
    if Lawful(h, rpmMax, itpmMax) && Admissible(h, rpmMax, itpmMax, now, weight) {
      LawfulAppend(h, rpmMax, itpmMax, now, weight);
    }
  }

  function Times(q: seq<Admission>): seq<Time> {
    seq(|q|, i requires 0 <= i < |q| => q[i].at)
  }

  /** The earliest of the deadline and the expiry of the oldest recent entry, but at least 1 ms from now. */
  function NextLook(recent: seq<Admission>, now: Time, deadline: Time): Time {
    var wakeup := if recent != [] && recent[0].at + WINDOW < deadline then recent[0].at + WINDOW else deadline;
    if wakeup < now + MILLI then now + MILLI else wakeup
  }

  // ----- The computed wakeup is tight -----

  lemma {:induction false} LaterRecentContains(h: seq<Admission>, more: seq<Admission>, now: Time)
    requires Expired(h, now) < |h|
    ensures Recent(h + more, now) == Recent(h, now) + more
  {
    ExpiredAreOld(h, now);
    ExpiredIs(h + more, now, Expired(h, now));
  }

  lemma {:induction false} SumConcat(q: seq<Admission>, r: seq<Admission>)
    ensures Sum(q + r) == Sum(q) + Sum(r)
  {
    SumSuffix(q + r, |q|);
    assert (q + r)[..|q|] == q && (q + r)[|q|..] == r;
  }

  /** A call refused at `now` stays refused at every instant before the oldest recent entry expires, whatever
      others do. */
  lemma NothingToSeeBeforeWakeup(h: seq<Admission>, more: seq<Admission>, rpmMax: nat, itpmMax: nat, now: Time,
        weight: nat, at: Time)
    requires !Admissible(h, rpmMax, itpmMax, now, weight) && now <= at
    requires Recent(h, now) != [] ==> at < Recent(h, now)[0].at + WINDOW
    ensures !Admissible(h + more, rpmMax, itpmMax, at, weight)
  {
    var k := Expired(h, now);
    if k < |h| {
      ExpiredAreOld(h, now);
      forall i | 0 <= i < k ensures at - h[i].at >= WINDOW { assert now - h[i].at >= WINDOW; }
      ExpiredIs(h, at, k);
      LaterRecentContains(h, more, at);
      SumConcat(Recent(h, at), more);
    }
  }

  /** Whoever else is admitted meanwhile, at no instant of this span is there room for the call. */
  ghost predicate NoRoomBetween(h: seq<Admission>, rpmMax: nat, itpmMax: nat, weight: nat, from: Time, until: Time) {
    forall more: seq<Admission>, at: Time :: from <= at < until ==> !Admissible(h + more, rpmMax, itpmMax, at, weight)
  }

  /** The sleep of a refused call is neither too long nor too short: there is no room for it from one millisecond on
      until the target, and at the target an entry has expired or the deadline has come. */
  lemma NextLookIsTight(h: seq<Admission>, rpmMax: nat, itpmMax: nat, now: Time, weight: nat, deadline: Time)
    requires !Admissible(h, rpmMax, itpmMax, now, weight)
    ensures
      var target := NextLook(Recent(h, now), now, deadline);
      && NoRoomBetween(h, rpmMax, itpmMax, weight, now + MILLI, target)
      && (target >= deadline || Expired(h, target) > Expired(h, now))
      && (target > deadline ==> target == now + MILLI)
  {
    var target, k := NextLook(Recent(h, now), now, deadline), Expired(h, now);
    forall more: seq<Admission>, at: Time | now + MILLI <= at < target
      ensures !Admissible(h + more, rpmMax, itpmMax, at, weight)
    {
      NothingToSeeBeforeWakeup(h, more, rpmMax, itpmMax, now, weight, at);
    }
    if target < deadline { ExpiredMore(h, now, target); }
  }

  lemma ExpiredMore(h: seq<Admission>, now: Time, later: Time)
    requires now <= later && Recent(h, now) != [] && later >= Recent(h, now)[0].at + WINDOW
    ensures Expired(h, later) > Expired(h, now)
  {
    ExpiredAreOld(h, now);
    var e := Expired(h, later);
    assert e < |h| ==> later - h[e].at < WINDOW;
  }

  /** With nobody else admitted, room once there stays. */
  lemma RoomStays(h: seq<Admission>, rpmMax: nat, itpmMax: nat, weight: nat, at: Time, later: Time)
    requires at <= later && Admissible(h, rpmMax, itpmMax, at, weight)
    ensures Admissible(h, rpmMax, itpmMax, later, weight)
  {
    RecentAgain(h, at, later);
    SumSuffix(Recent(h, at), Expired(Recent(h, at), later));
  }

  // ----- The limiter -----

  datatype Outcome = Admitted | TimedOut | Sleep(target: Time)

  class RateLimiter {
    const rpmMax: nat
    const itpmMax: nat
    const waitMax: nat
    var requests: seq<Time>
    var tokens: seq<Admission>
    var curItpm: nat
    /** Everything ever admitted, and the time of the last locked region. */
    ghost var history: seq<Admission>
    ghost var clock: Time

    /** The running token sum cannot saturate under these caps. */
    ghost predicate Exact() {
      itpmMax < U32_MAX || rpmMax <= 1
    }

    ghost predicate Valid()
      reads this
    {
      && itpmMax <= U32_MAX
      && EndsBy(history, clock)
      && tokens == Recent(history, clock)
      && requests == Times(tokens)
      && |tokens| <= rpmMax
      && curItpm <= U32_MAX
      && (Exact() ==> curItpm == Sum(tokens) <= itpmMax && Lawful(history, rpmMax, itpmMax))
    }

    constructor (rpmMax: nat, itpmMax: nat, waitMaxSecs: nat, ghost start: Time)
      requires itpmMax <= U32_MAX
      ensures Valid() && history == [] && clock == start
      ensures this.rpmMax == rpmMax && this.itpmMax == itpmMax && this.waitMax == waitMaxSecs * 1000 * MILLI
    {
      this.rpmMax, this.itpmMax, waitMax := rpmMax, itpmMax, waitMaxSecs * 1000 * MILLI;
      requests, tokens, curItpm := [], [], 0;
      history, clock := [], start;
    }

    /** The queue of times keeps step with `q`, the queue of what was charged at those times. */
    method PruneRequests(now: Time, ghost q: seq<Admission>)
      requires requests == Times(q)
      modifies this`requests
      ensures requests == Times(Recent(q, now))
    {
      ghost var k := 0;
      while requests != [] && now - requests[0] >= WINDOW
        invariant k <= |old(requests)| && requests == old(requests)[k..]
        invariant forall i :: 0 <= i < k ==> now - old(requests)[i] >= WINDOW
        decreases |requests|
      {
        requests := requests[1..];
        k := k + 1;
      }
      forall i | 0 <= i < |q| ensures q[i].at == old(requests)[i] { assert Times(q)[i] == q[i].at; }
      ExpiredIs(q, now, k);
    }

    method PruneTokens(now: Time)
      modifies this`tokens, this`curItpm
      ensures tokens == Recent(old(tokens), now)
      ensures curItpm <= old(curItpm)
      ensures old(curItpm) == Sum(old(tokens)) ==> curItpm == Sum(tokens)
    {
      ghost var k := 0;
      while tokens != [] && now - tokens[0].at >= WINDOW
        invariant k <= |old(tokens)| && tokens == old(tokens)[k..]
        invariant forall i :: 0 <= i < k ==> now - old(tokens)[i].at >= WINDOW
        invariant curItpm <= old(curItpm)
        invariant old(curItpm) == Sum(old(tokens)) ==> curItpm == Sum(tokens)
        decreases |tokens|
      {
        SumSuffix(tokens, 1);
        assert Sum(tokens[..1]) == tokens[0].weight;
        curItpm := SaturatingSub(curItpm, tokens[0].weight);
        tokens := tokens[1..];
        k := k + 1;
      }
      ExpiredIs(old(tokens), now, k);
    }

    method Prune(now: Time)
      requires Valid() && clock <= now
      modifies this
      ensures Valid() && clock == now && history == old(history)
    {
      RecentAgain(history, clock, now);
      PruneRequests(now, tokens);
      PruneTokens(now);
      clock := now;
    }

    method Record(now: Time, estimated: nat)
      requires Valid() && clock == now && estimated <= U32_MAX
      requires |requests| < rpmMax && SaturatingAdd(curItpm, estimated) <= itpmMax
      modifies this`requests, this`tokens, this`curItpm, this`history
      ensures Valid() && history == old(history) + [Admission(now, estimated)]
      ensures Exact() ==> Admissible(old(history), rpmMax, itpmMax, now, estimated)
    {
      OneMoreAdmission(history, rpmMax, itpmMax, now, estimated);
      requests := requests + [now];
      tokens := tokens + [Admission(now, estimated)];
      curItpm := SaturatingAdd(curItpm, estimated);
      history := history + [Admission(now, estimated)];
    }

    /** The locked region of `acquire`: prune, then admit, give up, or say when to look again. */
    method Attempt(now: Time, started: Time, estimated: nat) returns (r: Outcome)
      requires Valid() && clock <= now && estimated <= U32_MAX
      modifies this
      ensures Valid() && clock == now
      ensures history == old(history) + if r.Admitted? then [Admission(now, estimated)] else []
      ensures Exact() ==> (r.Admitted? <==> Admissible(old(history), rpmMax, itpmMax, now, estimated))
      ensures itpmMax == U32_MAX ==> (r.Admitted? <==> |Recent(old(history), now)| < rpmMax)
      ensures r.TimedOut? ==> now - started >= waitMax
      ensures r.Sleep? ==> now - started < waitMax && now + MILLI <= r.target < started + waitMax + MILLI
      ensures r.Sleep? ==> r.target >= started + waitMax || Expired(history, r.target) > Expired(history, now)
      ensures r.Sleep? && Exact() ==> NoRoomBetween(history, rpmMax, itpmMax, estimated, now + MILLI, r.target)
    {
      Prune(now);

      var rpmOk := |requests| < rpmMax;
      var itpmOk := SaturatingAdd(curItpm, estimated) <= itpmMax;
      if rpmOk && itpmOk {
        Record(now, estimated);
        return Admitted;
      }
      if now - started >= waitMax {
        return TimedOut;
      }
      var wakeup := started + waitMax;
      if requests != [] && requests[0] + WINDOW < wakeup {
        wakeup := requests[0] + WINDOW;
      }
      if tokens != [] && tokens[0].at + WINDOW < wakeup {
        wakeup := tokens[0].at + WINDOW;
      }
      r := Sleep(if wakeup < now + MILLI then now + MILLI else wakeup);
      if r.target < started + waitMax { ExpiredMore(history, now, r.target); }
      if Exact() { NextLookIsTight(history, rpmMax, itpmMax, now, estimated, started + waitMax); }
    }

    /** Other tasks use the limiter until `until`: any number of locked regions, at any times, with any weights. */
    method Others(from: Time, until: Time)
      requires Valid() && clock == from <= until
      modifies this
      ensures Valid() && clock <= until && old(history) <= history
    {
      var rounds: nat :| 0 <= rounds;
      var now := from;
      for i := 0 to rounds
        invariant Valid() && clock == now <= until && old(history) <= history
      {
        var at: Time, began: Time, weight: nat := *, *, *;
        if now <= at <= until && weight <= U32_MAX {
          var _ := Attempt(at, began, weight);
          now := at;
        }
      }
    }

    /** One turn of the loop of `acquire`: the locked region, then the sleep, in which others use the limiter. */
    method Turn(now: Time, started: Time, estimated: nat) returns (r: Outcome)
      requires Valid() && clock <= now && started <= now && estimated <= U32_MAX
      modifies this
      ensures Valid()
      ensures r.Admitted? ==> clock == now && history == old(history) + [Admission(now, estimated)]
      ensures r.TimedOut? ==> clock == now && history == old(history) && started + waitMax <= now
      ensures r.TimedOut? && Exact() ==> !Admissible(history, rpmMax, itpmMax, now, estimated)
      ensures r.Sleep? ==>
        && clock <= r.target && now < started + waitMax && now + MILLI <= r.target < started + waitMax + MILLI
        && old(history) <= history
      ensures r.Sleep? && Exact() ==>
        && !Admissible(old(history), rpmMax, itpmMax, now, estimated)
        && NoRoomBetween(old(history), rpmMax, itpmMax, estimated, now + MILLI, r.target)
    {
      r := Attempt(now, started, estimated);
      if r.Sleep? {
        assert history == old(history);
        Others(now, r.target);
      }
    }

    /** A millisecond before `end` and earlier there was no room for the call. */
    ghost predicate NoRoomYet(h: seq<Admission>, weight: nat, started: Time, end: Time) {
      forall at: Time :: started <= at && at + MILLI <= end ==> !Admissible(h, rpmMax, itpmMax, at, weight)
    }

    lemma NoRoomTillTarget(h: seq<Admission>, weight: nat, started: Time, now: Time, target: Time)
      requires !Admissible(h, rpmMax, itpmMax, now, weight)
      requires NoRoomBetween(h, rpmMax, itpmMax, weight, now + MILLI, target)
      ensures NoRoomYet(h, weight, started, target)
    {
      forall at: Time | started <= at && at + MILLI <= target ensures !Admissible(h, rpmMax, itpmMax, at, weight) {
        if at <= now {
          if Admissible(h, rpmMax, itpmMax, at, weight) { RoomStays(h, rpmMax, itpmMax, weight, at, now); }
        } else {
          // Room in the first millisecond would still be there at the end of it.
          var later := if at < now + MILLI then now + MILLI else at;
          assert !Admissible(h + [], rpmMax, itpmMax, later, weight) && h + [] == h;
          if Admissible(h, rpmMax, itpmMax, at, weight) { RoomStays(h, rpmMax, itpmMax, weight, at, later); }
        }
      }
    }

    /** `acquire` with ideal timers: it decides before 1 ms after its deadline, and what it reports is true then. */
    method Acquire(started: Time, estimated: nat) returns (ok: bool, ghost end: Time)
      requires Valid() && clock <= started && estimated <= U32_MAX
      modifies this
      ensures Valid() && clock == end
      ensures started <= end && (end == started || end < started + waitMax + MILLI)
      ensures ok ==> history != [] && history[|history| - 1] == Admission(end, estimated)
      ensures !ok ==> started + waitMax <= end
      ensures !ok && Exact() ==> !Admissible(history, rpmMax, itpmMax, end, estimated)
      // Left alone by others, it is admitted within one millisecond of the first instant with room for it.
      ensures ok && Exact() && history == old(history) + [Admission(end, estimated)] ==>
        NoRoomYet(old(history), estimated, started, end)
    {
      var now := started;
      while true
        invariant Valid() && clock <= now && started <= now
        invariant now == started || now < started + waitMax + MILLI
        invariant old(history) <= history
        invariant Exact() && history == old(history) ==> NoRoomYet(old(history), estimated, started, now)
        decreases started + waitMax + MILLI - now
      {
        ghost var before := history;
        var r := Turn(now, started, estimated);
        if r.Admitted? {
          assert history == old(history) + [Admission(now, estimated)] ==> before == old(history) by {
            assert history[..|before|] == before;
          }
          return true, now;
        } else if r.TimedOut? {
          return false, now;
        }
        if Exact() && history == old(history) {
          assert before == old(history) by { assert |before| == |history|; }
          NoRoomTillTarget(before, estimated, started, now, r.target);
        }
        now := r.target;
      }
    }
  }

  // ----- The sixty-second guarantee -----

  lemma {:induction false} CallsMonotone(h: seq<Admission>, from: Time, to: Time, from': Time, to': Time)
    requires from' <= from && (forall i :: 0 <= i < |h| ==> h[i].at < to')
    ensures Calls(h, from, to) <= Calls(h, from', to') && Tokens(h, from, to) <= Tokens(h, from', to')
  {
    if h != [] { CallsMonotone(h[..|h| - 1], from, to, from', to'); }
  }

  lemma {:induction false} LawfulIsSorted(h: seq<Admission>, rpmMax: nat, itpmMax: nat)
    requires Lawful(h, rpmMax, itpmMax)
    ensures forall i :: 0 <= i < |h| ==> h[i].at <= h[|h| - 1].at
  {
    if |h| > 1 { LawfulIsSorted(h[..|h| - 1], rpmMax, itpmMax); }
  }

  lemma RecentExtends(h: seq<Admission>, a: Admission, now: Time)
    requires now - a.at < WINDOW
    ensures Recent(h + [a], now) == Recent(h, now) + [a]
  {
    ExpiredAreOld(h, now);
    ExpiredIs(h + [a], now, Expired(h, now));
  }

  /** What the pruned queue holds at `now` is what the history has in the last sixty seconds. */
  ghost predicate QueueIsWindow(h: seq<Admission>, now: Time) {
    && |Recent(h, now)| == Calls(h, now - WINDOW + 1, now + 1)
    && Sum(Recent(h, now)) == Tokens(h, now - WINDOW + 1, now + 1)
  }

  lemma QueueIsWindowStep(h: seq<Admission>, a: Admission, now: Time)
    requires QueueIsWindow(h, now) && a.at <= now
    requires forall i :: 0 <= i < |h| ==> h[i].at <= a.at
    ensures QueueIsWindow(h + [a], now)
  {
    assert (h + [a])[..|h|] == h;
    if now - a.at < WINDOW {
      RecentExtends(h, a, now);
      SumAppend(Recent(h, now), a);
    } else {
      ExpiredIs(h + [a], now, |h| + 1);
      ExpiredIs(h, now, |h|);
    }
  }

  lemma {:induction false} RecentIsLastWindow(h: seq<Admission>, rpmMax: nat, itpmMax: nat, now: Time)
    requires Lawful(h, rpmMax, itpmMax) && (h != [] ==> h[|h| - 1].at <= now)
    ensures QueueIsWindow(h, now)
  {
    if h != [] {
      var before, last := h[..|h| - 1], h[|h| - 1];
      assert before + [last] == h;
      LawfulIsSorted(h, rpmMax, itpmMax);
      assert forall i :: 0 <= i < |before| ==> before[i] == h[i];
      RecentIsLastWindow(before, rpmMax, itpmMax, now);
      QueueIsWindowStep(before, last, now);
    }
  }

  /** In every half-open window of sixty seconds, over the whole run, both caps hold. */
  lemma {:induction false} EveryWindowIsBounded(h: seq<Admission>, rpmMax: nat, itpmMax: nat, from: Time)
    requires Lawful(h, rpmMax, itpmMax)
    ensures Calls(h, from, from + WINDOW) <= rpmMax
    ensures Tokens(h, from, from + WINDOW) <= itpmMax
  {
    if h != [] {
      var before, last := h[..|h| - 1], h[|h| - 1];
      EveryWindowIsBounded(before, rpmMax, itpmMax, from);
      if from <= last.at < from + WINDOW {
        LawfulIsSorted(h, rpmMax, itpmMax);
        assert forall i :: 0 <= i < |before| ==> before[i] == h[i];
        RecentIsLastWindow(before, rpmMax, itpmMax, last.at);
        CallsMonotone(before, from, from + WINDOW, last.at - WINDOW + 1, last.at + 1);
      }
    }
  }

  // ----- What the saturating sum does at the largest cap -----

  lemma TwoAdmissions(h: seq<Admission>, a: Admission)
    requires h == ([] + [a]) + [a] && 0 <= a.at < WINDOW
    ensures Tokens(h, 0, WINDOW) == 2 * a.weight
  {
    assert h[..1] == [a] && [a][..0] == [];
    assert Tokens([a], 0, WINDOW) == a.weight;
  }

  /** With `itpm_max == u32::MAX` the saturated sum never exceeds the cap, so the token window is not enforced: every
      such limiter that may admit two calls lets twice the cap through. So the token bound holds of all runs of a
      limiter exactly when `Exact()` does. */
  method LargestCapOverruns(rpmMax: nat, waitMaxSecs: nat) returns (l: RateLimiter)
    requires rpmMax >= 2
    ensures l.rpmMax == rpmMax && l.itpmMax == U32_MAX && !l.Exact() && Tokens(l.history, 0, WINDOW) == 2 * l.itpmMax
  {
    l := new RateLimiter(rpmMax, U32_MAX, waitMaxSecs, 0);
    var first := l.Attempt(0, 0, U32_MAX);
    ghost var a := Admission(0, U32_MAX);
    assert |Recent([], 0)| == 0;
    assert l.history == [] + [a];
    ghost var h := l.history;
    var second := l.Attempt(0, 0, U32_MAX);
    assert |Recent(h, 0)| <= 1;
    assert l.history == h + [a];
    TwoAdmissions(l.history, a);
  }
}
