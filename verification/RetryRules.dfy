/** When the retry planners plan a retry, with which delay, and for which reason they stop. */
module RetryRules {
  import opened Json
  import opened Retry

  // ----- the rules, in terms of policy and attempt alone -----

  predicate InRange(p: Policy<int>, a: Attempt<int>) {
    && 1 <= p.maxAttempts <= 8 && 1 <= p.timeoutMs <= 3600000
    && 1 <= p.initialBackoffMs <= p.maxBackoffMs <= 60000
    && 1 <= a.attemptsCompleted <= 8 && 0 <= a.elapsedMs <= 3600000 && 0 <= a.code <= 16 && 0 <= a.jitterPermille <= 1000
    && (a.retryAfterMs.Some? ==> 0 <= a.retryAfterMs.value <= 3600000)
  }

  /** The first backoff doubled after every attempt but the first. */
  function Doubled(initial: int, attempts: int): int
    requires 1 <= attempts <= 8
  {
    initial * [1, 2, 4, 8, 16, 32, 64, 128][attempts - 1]
  }

  /** The smaller of the doubled and the largest backoff. */
  predicate IsBackoff(p: Policy<int>, a: Attempt<int>, b: int)
    requires 1 <= a.attemptsCompleted <= 8
  {
    var doubled := Doubled(p.initialBackoffMs, a.attemptsCompleted);
    b <= doubled && b <= p.maxBackoffMs && (b == doubled || b == p.maxBackoffMs)
  }

  /** The sampled share of the backoff, rounded down. */
  predicate IsShare(b: int, permille: int, n: int) { 1000 * n <= b * permille < 1000 * (n + 1) }

  /** The larger of the share and what the server asks for at least. */
  ghost predicate IsDelay(p: Policy<int>, a: Attempt<int>, n: int)
    requires 1 <= a.attemptsCompleted <= 8
  {
    exists b, s :: IsBackoff(p, a, b) && IsShare(b, a.jitterPermille, s) && IsLarger(a, s, n)
  }

  predicate IsLarger(a: Attempt<int>, s: int, n: int) {
    if a.retryAfterMs.Some? && a.retryAfterMs.value > s then n == a.retryAfterMs.value else n == s
  }

  predicate RetryableStatus(a: Attempt<int>) { a.code == 8 || a.code == 14 }

  /** Some delay fits what is left of the timeout, with time to spare for the call. */
  ghost predicate DelayFits(p: Policy<int>, a: Attempt<int>)
    requires 1 <= a.attemptsCompleted <= 8
  {
    exists n :: IsDelay(p, a, n) && a.elapsedMs + n < p.timeoutMs
  }

  /** The conditions for a retry. */
  ghost predicate MayRetry(p: Policy<int>, a: Attempt<int>) {
    && InRange(p, a) && !a.cancelled && a.replaySafe && a.attemptsCompleted < p.maxAttempts
    && RetryableStatus(a) && DelayFits(p, a)
  }

  /** The reason of a decision; of several that apply the first in this order. */
  ghost predicate ReasonHolds(p: Policy<int>, a: Attempt<int>, reason: Reason) {
    match reason
    case InvalidInput => !InRange(p, a)
    case Cancelled => InRange(p, a) && a.cancelled
    case UnsafeReplay => InRange(p, a) && !a.cancelled && !a.replaySafe
    case AttemptsExhausted => InRange(p, a) && !a.cancelled && a.replaySafe && a.attemptsCompleted >= p.maxAttempts
    case DeadlineExhausted =>
      && InRange(p, a) && !a.cancelled && a.replaySafe && a.attemptsCompleted < p.maxAttempts
      && (a.elapsedMs >= p.timeoutMs || (RetryableStatus(a) && !DelayFits(p, a)))
    case NonRetryable =>
      && InRange(p, a) && !a.cancelled && a.replaySafe && a.attemptsCompleted < p.maxAttempts
      && a.elapsedMs < p.timeoutMs && !RetryableStatus(a)
    case RetryNow => MayRetry(p, a)
  }

  /** A decision is right: it retries exactly when it may, after exactly the delay, and gives the reason that holds. */
  ghost predicate Right(p: Policy<int>, a: Attempt<int>, d: Decision) {
    && (d.retry <==> MayRetry(p, a))
    && (forall reason :: d.reason == reason <==> ReasonHolds(p, a, reason))
    && (d.retry ==> IsDelay(p, a, d.delayMs))
    && (!d.retry ==> d.delayMs == 0)
  }

  // ----- the planners follow them -----

  lemma BackoffIs(p: Policy<int>, a: Attempt<int>, b: int)
    requires 1 <= a.attemptsCompleted <= 8
    ensures IsBackoff(p, a, b) <==> b == Cap(p, a.attemptsCompleted)
  {
    PowersOfTwo(a.attemptsCompleted - 1);
  }

  lemma ShareIs(b: int, permille: int, n: int)
    requires b >= 0 && permille >= 0
    ensures IsShare(b, permille, n) <==> n == Share(b, permille)
  {
    var product := b * permille;
    assert product >= 0;
    assert Share(b, permille) == product / 1000;
  }

  lemma DelayIs(p: Policy<int>, a: Attempt<int>, n: int)
    requires InRange(p, a)
    ensures IsDelay(p, a, n) <==> n == Max(Jittered(p, a), ServerMinimum(a))
  {
    var b := Cap(p, a.attemptsCompleted);
    CapRange(p, a.attemptsCompleted);
    BackoffIs(p, a, b);
    var s := Share(b, a.jitterPermille);
    ShareIs(b, a.jitterPermille, s);
    ShareNotNegative(b, a.jitterPermille);
    forall x, y | IsBackoff(p, a, x) && IsShare(x, a.jitterPermille, y) ensures x == b && y == s {
      BackoffIs(p, a, x);
      ShareIs(b, a.jitterPermille, y);
    }
    assert IsBackoff(p, a, b) && IsShare(b, a.jitterPermille, s);
    assert IsLarger(a, s, n) <==> n == Max(s, ServerMinimum(a));
  }

  lemma ShareNotNegative(b: int, permille: int)
    requires b >= 0 && permille >= 0
    ensures Share(b, permille) >= 0
  {
    assert b * permille >= 0;
  }

  lemma DelayFitsIff(p: Policy<int>, a: Attempt<int>)
    requires InRange(p, a)
    ensures DelayFits(p, a) <==> a.elapsedMs + Max(Jittered(p, a), ServerMinimum(a)) < p.timeoutMs
    ensures IsDelay(p, a, Max(Jittered(p, a), ServerMinimum(a)))
    ensures Max(Jittered(p, a), ServerMinimum(a)) >= 0
  {
    var delay := Max(Jittered(p, a), ServerMinimum(a));
    DelayIs(p, a, delay);
    CapRange(p, a.attemptsCompleted);
    ShareNotNegative(Cap(p, a.attemptsCompleted), a.jitterPermille);
    if n :| IsDelay(p, a, n) && a.elapsedMs + n < p.timeoutMs {
      DelayIs(p, a, n);
    }
  }

  lemma DartIsRight(p: Policy<int>, a: Attempt<int>)
    ensures Right(p, a, PlanDart(p, a))
  {
    assert ValidInput(p, a) <==> InRange(p, a);
    if InRange(p, a) {
      DelayFitsIff(p, a);
    }
  }

  /** All three planners are right on every 32-bit input, whatever the rounding of doubles. */
  lemma PlannersAreRight(fl: real -> real, p: Policy<u32>, a: Attempt<u32>)
    requires RelativeError(fl) && ExactOnIntegers(fl)
    ensures Right(PolicyOf(p), AttemptOf(a), PlanDart(PolicyOf(p), AttemptOf(a)))
    ensures Right(PolicyOf(p), AttemptOf(a), PlanRust(p, a))
    ensures Right(PolicyOf(p), AttemptOf(a), PlanScript(fl, PolicyRecord(PolicyOf(p)), AttemptRecord(AttemptOf(a))))
  {
    PlannersAgree(fl, p, a);
    DartIsRight(PolicyOf(p), AttemptOf(a));
  }
}
