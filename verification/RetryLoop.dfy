/** Calling the model with retries (src/chat/client.rs). Times are in milliseconds of a clock that only sends and
    sleeps move. */
module RetryLoop {
  import opened Basics

  datatype Failure =
    | Throttled(status: nat, hint: Option<nat>)
    | Auth
    | ModelNotFound
    | BadRequest(status: nat)
    | Transport
    | Decode
    | RateLimited
  datatype Reply = Success | Failed(failure: Failure)
  datatype Result = Ok | Err(failure: Failure) | BudgetSpent | TimedOut

  const BUDGET: nat := 30_000
  const HINT_MAX: nat := 8_000
  const TRANSPORT_COOLDOWN: nat := 5_000

  // ----- The policy -----

  datatype Decision = Retry(minMs: nat, maxMs: nat) | Stop

  predicate Retryable(status: nat) { status in {429, 500, 502, 503, 504} }

  function RetryDecision(status: nat, attempt: nat): Decision {
    if attempt >= 2 || !Retryable(status) then Stop
    else
      var base := if attempt == 0 then 1_000 else 2_000;
      Retry(base - base / 4, base + base / 4)
  }

  /** What a failure counts as; None for the one that is never looked up. A transport error counts as unavailable. */
  function StatusOf(f: Failure): nat {
    match f
    case Throttled(status, _) => status
    case Auth => 401
    case ModelNotFound => 404
    case BadRequest(status) => status
    case Transport => 503
    case Decode => 0
    case RateLimited => 0
  }

  function HintOf(f: Failure): Option<nat> { if f.Throttled? then f.hint else None }

  /** Another try may help: one of these statuses, or no connection. */
  predicate Transient(f: Failure) {
    match f
    case Throttled(status, _) => status in {429, 500, 502, 503, 504}
    case BadRequest(status) => status in {429, 500, 502, 503, 504}
    case Transport => true
    case _ => false
  }

  /** One second before the first retry and two before the second, give or take a quarter. */
  function Shortest(attempt: int): int { if attempt == 0 then 750 else 1_500 }

  function Longest(attempt: int): int { if attempt == 0 then 1_250 else 2_500 }

  /** The schedule: two retries of transient failures. */
  lemma PolicyIs(f: Failure, attempt: nat)
    ensures RetryDecision(StatusOf(f), attempt) ==
      if Transient(f) && attempt < 2 then Retry(Shortest(attempt), Longest(attempt)) else Stop
  {
    assert attempt < 2 ==> attempt == 0 || attempt == 1;
  }

  // ----- A call's history -----

  /** One send: when it began and ended, what came back, the cache beta flag before and after, and when some call of the
      process last failed to get through, 0 for never. A reply of None is a timeout. */
  datatype Send = Send(at: int, end: int, reply: Option<Reply>, betaBefore: bool, betaAfter: bool, lastFailure: int)

  predicate Flips(s: Send) { s.betaBefore && !s.betaAfter }

  /** Whether one of the first `k` sends turned the beta flag off. */
  predicate FlippedBy(sends: seq<Send>, k: nat)
    requires k <= |sends|
  {
    k > 0 && (FlippedBy(sends, k - 1) || Flips(sends[k - 1]))
  }

  /** The number of regular retries before send `k`: the send after the first flip is free. */
  function AttemptAt(sends: seq<Send>, k: nat): int
    requires k <= |sends|
  {
    k - if FlippedBy(sends, k) then 1 else 0
  }

  /** Send `k` failed, and may be followed by another at this instant: at once when it turned the beta flag off for the
      first time, else after the wait that the policy or the server's hint gives. */
  predicate Followed(sends: seq<Send>, start: int, k: nat, at: int)
    requires k < |sends|
  {
    var s, gap := sends[k], at - sends[k].end;
    && s.reply.Some? && s.reply.value.Failed?
    && if Flips(s) && !FlippedBy(sends, k) then gap == 0
       else RegularRetry(s.reply.value.failure, AttemptAt(sends, k), gap, start + BUDGET - s.end, s.lastFailure, s.end)
  }

  predicate RegularRetry(f: Failure, attempt: int, gap: int, left: int, lastFailure: int, end: int) {
    && !GivesUp(f, attempt, left, lastFailure, end)
    && match HintOf(f)
       case Some(hint) => gap == Min(Min(hint, HINT_MAX), left)
       case None => Shortest(attempt) <= gap <= Longest(attempt)
  }

  /** The failure is final: it is none that a retry may cure, or comes after two retries, or is a second failure to
      connect within the cooldown, or the longest wait for the next try exceeds what is left. A hint always fits. */
  predicate GivesUp(f: Failure, attempt: int, left: int, lastFailure: int, end: int) {
    || !Transient(f)
    || attempt >= 2
    || (f.Transport? && lastFailure != 0 && end - lastFailure <= TRANSPORT_COOLDOWN)
    || (HintOf(f).None? && Longest(attempt) > left)
  }

  /** The wait after a failure lasts as long as what is left of the budget: a hint that is at least that long, or a step
      of the schedule whose longest wait is just that. */
  predicate WaitFills(f: Failure, attempt: int, left: int) {
    && attempt < 2 && Transient(f)
    && match HintOf(f)
       case Some(hint) => Min(hint, HINT_MAX) >= left
       case None => Longest(attempt) == left
  }

  predicate FailedLast(sends: seq<Send>) {
    sends != [] && sends[|sends| - 1].reply.Some? && sends[|sends| - 1].reply.value.Failed?
  }

  function LastFailure(sends: seq<Send>): Failure
    requires FailedLast(sends)
  {
    sends[|sends| - 1].reply.value.failure
  }

  /** Waiting after the last send spends what is left of the budget. */
  predicate LastWaitFills(sends: seq<Send>, start: int)
    requires FailedLast(sends)
  {
    WaitFills(LastFailure(sends), AttemptAt(sends, |sends| - 1), start + BUDGET - sends[|sends| - 1].end)
  }

  /** The last failure is final. */
  predicate LastGivesUp(sends: seq<Send>, start: int)
    requires FailedLast(sends)
  {
    var s := sends[|sends| - 1];
    GivesUp(LastFailure(sends), AttemptAt(sends, |sends| - 1), start + BUDGET - s.end, s.lastFailure, s.end)
  }

  /** The last send turned the beta flag off, as the first to do so, with time left: it is sent again at once. */
  predicate FreeRetryDue(sends: seq<Send>, start: int)
    requires sends != []
  {
    var s := sends[|sends| - 1];
    Flips(s) && !FlippedBy(sends, |sends| - 1) && s.end - start < BUDGET
  }

  ghost predicate WellTimed(sends: seq<Send>, start: int) {
    && (forall k :: 0 <= k < |sends| ==>
      start <= sends[k].at < start + BUDGET && sends[k].at <= sends[k].end <= start + BUDGET)
    && (forall k :: 0 <= k < |sends| - 1 ==> WellFollowed(sends, start, k))
  }

  predicate WellFollowed(sends: seq<Send>, start: int, k: nat)
    requires k < |sends| - 1
  {
    Followed(sends, start, k, sends[k + 1].at)
  }

  lemma {:induction false} FlippedPrefix(sends: seq<Send>, s: Send, k: nat)
    requires k <= |sends|
    ensures FlippedBy(sends + [s], k) == FlippedBy(sends, k)
  {
    if k > 0 { FlippedPrefix(sends, s, k - 1); }
  }

  /** One more send after one that may be followed. */
  lemma Follow(sends: seq<Send>, s: Send, start: int)
    requires WellTimed(sends, start) && start <= s.at < start + BUDGET && s.at <= s.end <= start + BUDGET
    requires sends != [] ==> Followed(sends, start, |sends| - 1, s.at)
    ensures WellTimed(sends + [s], start) && FlippedBy(sends + [s], |sends|) == FlippedBy(sends, |sends|)
  {
    FlippedPrefix(sends, s, |sends|);
    forall k | 0 <= k < |sends| ensures WellFollowed(sends + [s], start, k) {
      FlippedPrefix(sends, s, k);
      if k < |sends| - 1 { assert WellFollowed(sends, start, k); }
    }
  }

  /** Three attempts, and one more after the beta flag went off. */
  lemma AtMostFourSends(sends: seq<Send>, start: int)
    requires WellTimed(sends, start) && sends != []
    ensures |sends| <= 3 + if FlippedBy(sends, |sends| - 1) then 1 else 0
  {
    if |sends| > 1 {
      assert WellFollowed(sends, start, |sends| - 2);
      if |sends| > 2 { assert WellFollowed(sends, start, |sends| - 3); }
    }
  }

  /** Before a send: `attempt` regular retries so far, and the last failure may be followed now, unless the budget is
      spent. */
  ghost predicate Underway(sends: seq<Send>, start: int, now: int, attempt: int, betaUsed: bool) {
    && start <= now <= start + BUDGET && WellTimed(sends, start)
    && 0 <= attempt <= 2 && |sends| == attempt + (if betaUsed then 1 else 0)
    && (if sends == [] then now == start else FailedLast(sends))
    && if now - start < BUDGET then
         betaUsed == FlippedBy(sends, |sends|) && (sends != [] ==> Followed(sends, start, |sends| - 1, now))
       else LastWaitFills(sends, start) && !LastGivesUp(sends, start) && !FreeRetryDue(sends, start)
  }

  /** Just after a failed send. */
  ghost predicate Answered(sends: seq<Send>, start: int, now: int, f: Failure, attempt: int, betaUsed: bool) {
    && start <= now <= start + BUDGET && WellTimed(sends, start)
    && FailedLast(sends) && LastFailure(sends) == f && sends[|sends| - 1].end == now
    && 0 <= attempt <= 2 && attempt == AttemptAt(sends, |sends| - 1) && betaUsed == FlippedBy(sends, |sends| - 1)
  }

  lemma FreeRetry(sends: seq<Send>, start: int, now: int, f: Failure, attempt: int)
    requires Answered(sends, start, now, f, attempt, false) && Flips(sends[|sends| - 1]) && now - start < BUDGET
    ensures Underway(sends, start, now, attempt, true)
  {
  }

  lemma CountedRetry(sends: seq<Send>, start: int, now: int, end: int, f: Failure, attempt: int, betaUsed: bool)
    requires Answered(sends, start, end, f, attempt, betaUsed) && end <= now <= start + BUDGET && attempt < 2
    requires if now - start < BUDGET then Followed(sends, start, |sends| - 1, now) else LastWaitFills(sends, start)
    requires !LastGivesUp(sends, start)
    requires end - start < BUDGET && Flips(sends[|sends| - 1]) ==> betaUsed
    ensures Underway(sends, start, now, attempt + 1, betaUsed)
  {
  }

  // ----- The loop -----

  class Client {
    var now: int
    /** Whether the extended cache is still believed available: any call may turn it off. */
    var betaOn: bool
    /** When a call of this process last failed to get through; 0 when none did since the last success. */
    var lastFailure: int
    var sends: seq<Send>

    constructor (now: int, betaOn: bool, lastFailure: int)
      ensures this.now == now && this.betaOn == betaOn && this.lastFailure == lastFailure && sends == []
    {
      this.now, this.betaOn, this.lastFailure, sends := now, betaOn, lastFailure, [];
    }

    /** One round trip, cut off after `limit`. Other callers may change the shared flags meanwhile. */
    method SendOne(limit: nat) returns (reply: Option<Reply>)
      modifies this
      ensures old(now) <= now <= old(now) + limit
      ensures sends == old(sends) + [Send(old(now), now, reply, old(betaOn), betaOn, lastFailure)]
    {
      var before, beta := now, betaOn;
      var took: nat :| took <= limit;
      now := now + took;
      reply, betaOn, lastFailure := *, *, *;
      sends := sends + [Send(before, now, reply, beta, betaOn, lastFailure)];
    }

    method Sleep(ms: nat)
      modifies this`now
      ensures now == old(now) + ms
    {
      now := now + ms;
    }

    /** Sends up to three times, once more when the beta flag went off, and never beyond thirty seconds. */
    method CallWithRetry() returns (r: Result)
      requires sends == []
      modifies this
      ensures now <= old(now) + BUDGET && 1 <= |sends| <= 4
      ensures WellTimed(sends, old(now))
      ensures
        match r
        case Ok => sends[|sends| - 1].reply == Some(Success) && lastFailure == 0
        case Err(failure) =>
          && sends[|sends| - 1].reply == Some(Failed(failure))
          && (failure.Transport? ==> lastFailure == now)
        case TimedOut => sends[|sends| - 1].reply.None?
        case BudgetSpent => now == old(now) + BUDGET && FailedLast(sends)
      // A failed call has failed for good, and no other failure ends it but the one whose wait fills the budget.
      ensures FailedLast(sends) ==> !FreeRetryDue(sends, old(now)) && (r.Err? <==> LastGivesUp(sends, old(now)))
      // The error that asked for the wait is lost when the wait fills the budget: always so with a hint.
      ensures r == BudgetSpent ==> LastWaitFills(sends, old(now))
      ensures FailedLast(sends) && HintOf(LastFailure(sends)).Some? && LastWaitFills(sends, old(now)) ==>
        r == BudgetSpent
    {
      var started := now;
      var attempt: nat, betaRetryUsed := 0, false;
      while true
        invariant started == old(now) && Underway(sends, started, now, attempt, betaRetryUsed)
        decreases 3 - attempt, if betaRetryUsed then 0 else 1
      {
        var betaWasOn := betaOn;
        var remaining := started + BUDGET - now;
        if remaining == 0 { return BudgetSpent; }
        var reply := SendAgain(started, attempt, betaRetryUsed);
        if reply.None? { return TimedOut; }
        if reply.value.Success? {
          lastFailure := 0;
          return Ok;
        }
        var f := reply.value.failure;
        if betaWasOn && !betaOn && !betaRetryUsed && now - started < BUDGET {
          FreeRetry(sends, started, now, f, attempt);
          betaRetryUsed := true;
          continue;
        }
        var again := AfterFailure(f, attempt, started, betaRetryUsed);
        if !again { return Err(f); }
        attempt := attempt + 1;
      }
    }

    /** One more send within what is left of the budget, where the last may be followed now. */
    method SendAgain(started: int, ghost attempt: nat, ghost betaUsed: bool) returns (reply: Option<Reply>)
      requires now < started + BUDGET && Underway(sends, started, now, attempt, betaUsed)
      modifies this
      ensures now <= started + BUDGET && WellTimed(sends, started) && 1 <= |sends| <= 4
      ensures var s := sends[|sends| - 1];
        && s.reply == reply && s.end == now && s.lastFailure == lastFailure
        && (Flips(s) <==> old(betaOn) && !betaOn)
      ensures reply.Some? && reply.value.Failed? ==>
        Answered(sends, started, now, reply.value.failure, attempt, betaUsed)
    {
      ghost var before := sends;
      reply := SendOne(started + BUDGET - now);
      Follow(before, sends[|before|], started);
      AtMostFourSends(sends, started);
    }

    /** After a failure that the beta flag does not explain: gives up, or waits. */
    method AfterFailure(f: Failure, attempt: nat, started: int, ghost betaUsed: bool) returns (again: bool)
      requires Answered(sends, started, now, f, attempt, betaUsed) && sends[|sends| - 1].lastFailure == lastFailure
      requires now - started < BUDGET && Flips(sends[|sends| - 1]) ==> betaUsed
      modifies this`now, this`lastFailure
      ensures old(now) <= now <= started + BUDGET && lastFailure == if f.Transport? then old(now) else old(lastFailure)
      ensures again <==> !GivesUp(f, attempt, started + BUDGET - old(now), old(lastFailure), old(now))
      ensures again ==> attempt < 2 && Underway(sends, started, now, attempt + 1, betaUsed)
      ensures !again ==> now == old(now)
      ensures again && now == started + BUDGET ==> LastWaitFills(sends, started)
      ensures HintOf(f).Some? && LastWaitFills(sends, started) ==> again && now == started + BUDGET
    {
      PolicyIs(f, attempt);
      if f.Transport? {
        var previous := lastFailure;
        lastFailure := now;
        if previous != 0 && now - previous <= TRANSPORT_COOLDOWN { return false; }
      }
      if f.RateLimited? || RetryDecision(StatusOf(f), attempt).Stop? { return false; }
      var chosen, most := ChooseWait(f, attempt, started + BUDGET - now);
      if now - started + most > BUDGET { return false; }
      Sleep(chosen);
      CountedRetry(sends, started, now, old(now), f, attempt, betaUsed);
      return true;
    }

    /** The server's hint, clamped, or a jittered step of the schedule; and the longest the wait could have been. */
    method ChooseWait(f: Failure, attempt: nat, remaining: nat) returns (chosen: nat, most: nat)
      requires RetryDecision(StatusOf(f), attempt).Retry?
      ensures chosen <= most
      ensures
        match HintOf(f)
        case Some(hint) => chosen == most == Min(Min(hint, HINT_MAX), remaining)
        case None => Shortest(attempt) <= chosen && most == Longest(attempt)
    {
      PolicyIs(f, attempt);
      var decision := RetryDecision(StatusOf(f), attempt);
      if HintOf(f).Some? {
        chosen := Min(Min(HintOf(f).value, HINT_MAX), remaining);
        most := chosen;
      } else {
        chosen :| decision.minMs <= chosen <= decision.maxMs;
        most := decision.maxMs;
      }
    }
  }
}
