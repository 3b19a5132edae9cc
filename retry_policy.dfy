/** The retry rules that the completion handler and the stale-lock reaper share: the attempt budget,
    the lock timeout, the classification of error codes and the exponential backoff. */
module RetryPolicy {
  import opened Common
  import opened ActionModel

  const MAX_ATTEMPTS: nat := 5
  const MINUTE_MS: nat := 60 * 1000
  const STALE_LOCK_THRESHOLD_MS: nat := 5 * MINUTE_MS
  const BACKOFF_CAP_MINUTES: nat := 60

  const RETRYABLE_ERRORS: seq<string> := ["TEMP_DOM_FAIL", "NETWORK", "RATE_LIMIT"]
  const NON_RETRYABLE_ERRORS: seq<string> := ["AUTH_REQUIRED", "CHECKPOINT", "PERMISSION_DENIED"]

  datatype ErrorClass = Retryable | NonRetryable | Unclassified

  /** The bucket of an error code reported by the extension; an absent code is unclassified. */
  function Classify(code: string): (c: ErrorClass)
    ensures c == Retryable <==> code in RETRYABLE_ERRORS
    ensures c == NonRetryable <==> code in NON_RETRYABLE_ERRORS
    ensures c == Unclassified <==> code !in RETRYABLE_ERRORS && code !in NON_RETRYABLE_ERRORS
  {
    if code in NON_RETRYABLE_ERRORS then NonRetryable
    else if code in RETRYABLE_ERRORS then Retryable
    else Unclassified
  }

  function Pow2(n: nat): (p: nat)
    ensures p >= 1
  {
    if n == 0 then 1 else 2 * Pow2(n - 1)
  }

  lemma {:induction false} Pow2Monotone(m: nat, n: nat)
    requires m <= n
    ensures Pow2(m) <= Pow2(n)
  {
    if m < n {
      Pow2Monotone(m, n - 1);
    }
  }

  /** `Math.min(Math.pow(2, attemptCount), 60)`: the wait before a re-queued action may run again, in
      minutes. Powers beyond 2^6 are never computed, since they all exceed the cap. */
  function BackoffMinutes(attemptCount: nat): (m: nat)
    ensures m == Min(Pow2(attemptCount), BACKOFF_CAP_MINUTES)
    ensures 1 <= m <= BACKOFF_CAP_MINUTES
  {
    if attemptCount >= 6 then
      Pow2Monotone(6, attemptCount);
      assert Pow2(6) == 2 * Pow2(5) == 4 * Pow2(4) == 8 * Pow2(3) == 64;
      BACKOFF_CAP_MINUTES
    else
      Pow2Monotone(attemptCount, 5);
      assert Pow2(5) == 2 * Pow2(4) == 4 * Pow2(3) == 32;
      Pow2(attemptCount)
  }

  /** The schedule itself: 1, 2, 4, 8, 16, 32 minutes, then 60 for every later attempt. */
  lemma BackoffSchedule(attemptCount: nat)
    ensures attemptCount <= 5 ==> BackoffMinutes(attemptCount) == Pow2(attemptCount)
    ensures attemptCount >= 6 ==> BackoffMinutes(attemptCount) == 60
    ensures BackoffMinutes(1) == 2 && BackoffMinutes(2) == 4 && BackoffMinutes(4) == 16
  {
  }

  /** A re-queue only happens while the budget lasts, and within the budget the wait is at most 16
      minutes: the 60-minute cap is never reached. */
  lemma {:induction false} BackoffWithinBudget(attemptCount: nat)
    requires attemptCount < MAX_ATTEMPTS
    ensures BackoffMinutes(attemptCount) <= 16
  {
    Pow2Monotone(attemptCount, 4);
    assert Pow2(4) == 16;
  }

  /** The lock of a processing action was taken at least the threshold ago. */
  predicate LockExpired(a: Action, now: Time) {
    a.status == Processing && a.lockedAt.Some? && a.lockedAt.value <= now - STALE_LOCK_THRESHOLD_MS
  }

  /** Puts an action back in the queue, runnable once the backoff for its attempt count has passed. */
  function Requeue(a: Action, now: Time): (r: Action)
    ensures r.status == Pending && LockConsistent(r)
    ensures r.nextRunAt == Some(now + BackoffMinutes(a.attemptCount) * MINUTE_MS)
    ensures now + MINUTE_MS <= r.nextRunAt.value <= now + BACKOFF_CAP_MINUTES * MINUTE_MS
    ensures SameIdentity(a, r) && r.attemptCount == a.attemptCount
    ensures r.lastErrorCode == a.lastErrorCode && r.lastErrorMessage == a.lastErrorMessage
  {
    a.(status := Pending,
       nextRunAt := Some(now + BackoffMinutes(a.attemptCount) * MINUTE_MS),
       lockedAt := None,
       lockOwner := None)
  }
}
