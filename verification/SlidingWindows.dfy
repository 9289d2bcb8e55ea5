/** Counting times in sliding windows. Instants and durations are nanoseconds. */
module SlidingWindows {
  type Time = int
  const SECOND: nat := 1_000_000_000
  const MINUTE: nat := 60 * SECOND

  /** Drops entries from the front of a queue while they are older than `age`. */
  function DropOld(q: seq<Time>, now: Time, age: nat): (r: seq<Time>)
    ensures |r| <= |q|
  {
    if q != [] && now - q[0] > age then DropOld(q[1..], now, age) else q
  }

  function CountSince(q: seq<Time>, from: Time): (n: nat)
    ensures n <= |q|
  {
    if q == [] then 0 else CountSince(q[1..], from) + if q[0] >= from then 1 else 0
  }

  function CountIn(q: seq<Time>, from: Time, to: Time): nat {
    if q == [] then 0 else CountIn(q[..|q| - 1], from, to) + if from <= q[|q| - 1] <= to then 1 else 0
  }

  lemma {:induction false} CountSinceAppend(q: seq<Time>, t: Time, from: Time)
    ensures CountSince(q + [t], from) == CountSince(q, from) + if t >= from then 1 else 0
  {
    if q != [] {
      assert (q + [t])[1..] == q[1..] + [t];
      CountSinceAppend(q[1..], t, from);
    }
  }

  lemma {:induction false} CountSinceDropOld(q: seq<Time>, now: Time, age: nat, from: Time)
    requires from >= now - age
    ensures CountSince(DropOld(q, now, age), from) == CountSince(q, from)
  {
    if q != [] && now - q[0] > age { CountSinceDropOld(q[1..], now, age, from); }
  }

  /** Dropping early what a later, narrower drop would remove anyway changes nothing. */
  lemma {:induction false} DropOldTwice(q: seq<Time>, earlier: Time, wide: nat, now: Time, narrow: nat)
    requires earlier <= now && narrow <= wide
    ensures DropOld(DropOld(q, earlier, wide), now, narrow) == DropOld(q, now, narrow)
  {
    if q != [] && earlier - q[0] > wide { DropOldTwice(q[1..], earlier, wide, now, narrow); }
  }

  /** The accepted times of a sender: each was at most the `cap`-th since `window` before it, and time
      never went back. */
  ghost predicate Lawful(accepted: seq<Time>, window: nat, cap: nat) {
    accepted == [] ||
    var before, last := accepted[..|accepted| - 1], accepted[|accepted| - 1];
    && Lawful(before, window, cap)
    && CountSince(accepted, last - window) <= cap
    && forall i :: 0 <= i < |before| ==> before[i] <= last
  }

  lemma {:induction false} CountInAtMostSince(q: seq<Time>, from: Time, to: Time, since: Time)
    requires since <= from
    ensures CountIn(q, from, to) <= CountSince(q, since)
  {
    if q != [] {
      CountInAtMostSince(q[..|q| - 1], from, to, since);
      CountSinceAppend(q[..|q| - 1], q[|q| - 1], since);
      assert q[..|q| - 1] + [q[|q| - 1]] == q;
    }
  }

  /** A lawful list has at most `cap` times in any closed window. */
  lemma {:induction false} ClosedWindowBound(accepted: seq<Time>, window: nat, cap: nat, from: Time)
    requires Lawful(accepted, window, cap)
    ensures CountIn(accepted, from, from + window) <= cap
  {
    if accepted != [] {
      var last := accepted[|accepted| - 1];
      ClosedWindowBound(accepted[..|accepted| - 1], window, cap, from);
      if from <= last <= from + window {
        CountInAtMostSince(accepted, from, from + window, last - window);
      }
    }
  }
}
