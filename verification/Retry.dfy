/** The RPC retry planner in its Rust, JavaScript and Dart forms, and what a host run that obeys it may spend. */
module Retry {
  import opened Json
  import opened Numbers
  import Shape

  datatype Policy<N> = Policy(maxAttempts: N, timeoutMs: N, initialBackoffMs: N, maxBackoffMs: N)
  datatype Attempt<N> = Attempt(
    attemptsCompleted: N, elapsedMs: N, code: N, cancelled: bool, replaySafe: bool, jitterPermille: N,
    retryAfterMs: Option<N>)

  datatype Reason =
    RetryNow | InvalidInput | Cancelled | UnsafeReplay | AttemptsExhausted | DeadlineExhausted | NonRetryable
  datatype Decision = Decision(retry: bool, delayMs: int, reason: Reason)

  function Stop(reason: Reason): Decision { Decision(false, 0, reason) }

  // ----- Rust: unsigned 32-bit arithmetic, checked -----

  newtype u32 = x: int | 0 <= x < 0x1_0000_0000

  predicate Within(low: u32, x: u32, high: u32) { low <= x && x <= high }

  /** `1 << n` */
  function ShiftOne(n: u32): (r: u32)
    requires n <= 7
    ensures 1 <= r && r <= 128
  {
    [1, 2, 4, 8, 16, 32, 64, 128][n as int]
  }

  function MinU(a: u32, b: u32): u32 { if a < b then a else b }
  function MaxU(a: u32, b: u32): u32 { if a < b then b else a }

  lemma ProductBound(a: int, b: int, m: int, k: int)
    requires 0 <= a <= m && 0 <= b <= k
    ensures 0 <= a * b <= m * k
  {
    assert a * b <= m * b <= m * k;
  }

  function CapRust(p: Policy<u32>, attemptsCompleted: u32): (r: u32)
    requires p.initialBackoffMs <= 60000 && p.maxBackoffMs <= 60000 && Within(1, attemptsCompleted, 8)
    ensures r <= 60000
  {
    ProductBound(p.initialBackoffMs as int, ShiftOne(attemptsCompleted - 1) as int, 60000, 128);
    MinU(p.maxBackoffMs, p.initialBackoffMs * ShiftOne(attemptsCompleted - 1))
  }

  function JitterRust(cap: u32, permille: u32): u32
    requires cap <= 60000 && permille <= 1000
  {
    ProductBound(cap as int, permille as int, 60000, 1000);
    cap * permille / 1000
  }

  /** Every intermediate result is again a 32-bit number. */
  function PlanRust(p: Policy<u32>, a: Attempt<u32>): Decision {
    var valid :=
      && Within(1, p.maxAttempts, 8) && Within(1, p.timeoutMs, 3600000)
      && Within(1, p.initialBackoffMs, 60000) && Within(p.initialBackoffMs, p.maxBackoffMs, 60000)
      && Within(1, a.attemptsCompleted, 8) && a.elapsedMs <= 3600000 && a.code <= 16 && a.jitterPermille <= 1000
      && (a.retryAfterMs.Some? ==> a.retryAfterMs.value <= 3600000);
    if !valid then Stop(InvalidInput)
    else if a.cancelled then Stop(Cancelled)
    else if !a.replaySafe then Stop(UnsafeReplay)
    else if a.attemptsCompleted >= p.maxAttempts then Stop(AttemptsExhausted)
    else if a.elapsedMs >= p.timeoutMs then Stop(DeadlineExhausted)
    else if a.code != 8 && a.code != 14 then Stop(NonRetryable)
    else
      var jittered := JitterRust(CapRust(p, a.attemptsCompleted), a.jitterPermille);
      var delay := MaxU(jittered, if a.retryAfterMs.Some? then a.retryAfterMs.value else 0);
      if delay >= p.timeoutMs - a.elapsedMs then Stop(DeadlineExhausted)
      else Decision(true, delay as int, RetryNow)
  }

  // ----- Dart: integers and truncating division -----

  predicate Between(low: int, x: int, high: int) { low <= x <= high }

  predicate ValidInput(p: Policy<int>, a: Attempt<int>) {
    && Between(1, p.maxAttempts, 8) && Between(1, p.timeoutMs, 3600000)
    && Between(1, p.initialBackoffMs, 60000) && Between(p.initialBackoffMs, p.maxBackoffMs, 60000)
    && Between(1, a.attemptsCompleted, 8) && Between(0, a.elapsedMs, 3600000) && Between(0, a.code, 16)
    && Between(0, a.jitterPermille, 1000)
    && (a.retryAfterMs.Some? ==> Between(0, a.retryAfterMs.value, 3600000))
  }


  function Min(a: int, b: int): int { if a < b then a else b }
  function Max(a: int, b: int): int { if a < b then b else a }

  /** `~/` truncates toward zero. */
  function Truncate(a: int, b: int): int
    requires b > 0
  {
    if a >= 0 then a / b else -(-a / b)
  }

  /** The limit of the local backoff before jitter. */
  function Cap(p: Policy<int>, attemptsCompleted: int): int
    requires attemptsCompleted >= 1
  {
    Min(p.initialBackoffMs * Pow2(attemptsCompleted - 1), p.maxBackoffMs)
  }

  function ServerMinimum(a: Attempt<int>): int { if a.retryAfterMs.Some? then a.retryAfterMs.value else 0 }

  /** The reasons to stop that need no arithmetic, in order of priority. */
  function Refusal(p: Policy<int>, a: Attempt<int>): Option<Reason> {
    if !ValidInput(p, a) then Some(InvalidInput)
    else if a.cancelled then Some(Cancelled)
    else if !a.replaySafe then Some(UnsafeReplay)
    else if a.attemptsCompleted >= p.maxAttempts then Some(AttemptsExhausted)
    else if a.elapsedMs >= p.timeoutMs then Some(DeadlineExhausted)
    else if a.code != 8 && a.code != 14 then Some(NonRetryable)
    else None
  }

  function Share(cap: int, permille: int): int { Truncate(cap * permille, 1000) }

  function Jittered(p: Policy<int>, a: Attempt<int>): int
    requires a.attemptsCompleted >= 1
  {
    Share(Cap(p, a.attemptsCompleted), a.jitterPermille)
  }

  function PlanDart(p: Policy<int>, a: Attempt<int>): Decision {
    var refusal := Refusal(p, a);
    if refusal.Some? then Stop(refusal.value)
    else
      var delay := Max(Jittered(p, a), ServerMinimum(a));
      if delay >= p.timeoutMs - a.elapsedMs then Stop(DeadlineExhausted) else Decision(true, delay, RetryNow)
  }

  // ----- JavaScript: every operation rounds to a double -----

  const EXACT := 0x20_0000_0000_0000

  function Abs(x: real): real { if x < 0.0 then -x else x }

  /** The relative error of one rounding is at most 2 to the power of -53. */
  predicate Near(y: real, x: real) { Abs(y - x) <= Abs(x) / 9007199254740992.0 }

  /** Far from underflow and overflow. */
  predicate Normal(x: real) { 0.001 <= Abs(x) <= EXACT as real }

  ghost predicate RelativeError(fl: real -> real) {
    forall x | Normal(x) :: Near(fl(x), x)
  }

  predicate Whole(x: real) { x.Floor as real == x }

  /** Integers of at most 53 bits are doubles. */
  ghost predicate ExactOnIntegers(fl: real -> real) {
    forall x | Whole(x) && Abs(x) <= EXACT as real :: fl(x) == x
  }

  function JitteredJs(fl: real -> real, p: Policy<int>, a: Attempt<int>): int
    requires a.attemptsCompleted >= 1
  {
    ShareJs(fl, CapJs(fl, p, a.attemptsCompleted), a.jitterPermille)
  }

  function ShareJs(fl: real -> real, cap: real, permille: int): int { fl(fl(Scaled(cap, permille)) / 1000.0).Floor }

  function CapJs(fl: real -> real, p: Policy<int>, attemptsCompleted: int): real
    requires attemptsCompleted >= 1
  {
    LeastJs(fl(Scaled(p.initialBackoffMs as real, Pow2(attemptsCompleted - 1))), p.maxBackoffMs)
  }

  function Scaled(x: real, n: int): real { x * n as real }

  function LeastJs(x: real, limit: int): real { if x < limit as real then x else limit as real }

  function PlanJs(fl: real -> real, p: Policy<int>, a: Attempt<int>): Decision {
    var refusal := Refusal(p, a);
    if refusal.Some? then Stop(refusal.value)
    else
      var delay := Max(JitteredJs(fl, p, a), ServerMinimum(a));
      if delay as real >= fl(p.timeoutMs as real - a.elapsedMs as real) then Stop(DeadlineExhausted)
      else Decision(true, delay, RetryNow)
  }

  /** `Number.isSafeInteger`, and within the bounds */
  predicate Bounded(j: Json, low: int, high: int) {
    IsInteger(j) && -EXACT < ToInt(j) < EXACT && Between(low, ToInt(j), high)
  }

  const POLICY_KEYS := {"max_attempts", "timeout_ms", "initial_backoff_ms", "max_backoff_ms"}
  const ATTEMPT_KEYS := {"attempts_completed", "elapsed_ms", "code", "cancelled", "replay_safe", "jitter_permille"}
  const RETRY_AFTER := "retry_after_ms"

  function Number(j: Json, key: string): int { if IsInteger(Shape.Get(j, key)) then ToInt(Shape.Get(j, key)) else 0 }

  function PolicyIn(j: Json): Policy<int> {
    Policy(Number(j, "max_attempts"), Number(j, "timeout_ms"), Number(j, "initial_backoff_ms"), Number(j, "max_backoff_ms"))
  }

  function AttemptIn(j: Json): Attempt<int> {
    Attempt(Number(j, "attempts_completed"), Number(j, "elapsed_ms"), Number(j, "code"), Shape.TruthOf(Shape.Get(j, "cancelled")),
            Shape.TruthOf(Shape.Get(j, "replay_safe")), Number(j, "jitter_permille"),
            if Shape.Has(j, RETRY_AFTER) then Some(Number(j, RETRY_AFTER)) else None)
  }

  predicate BoundedPolicy(policy: Json) {
    && Bounded(Shape.Get(policy, "max_attempts"), 1, 8) && Bounded(Shape.Get(policy, "timeout_ms"), 1, 3600000)
    && Bounded(Shape.Get(policy, "initial_backoff_ms"), 1, 60000)
    && Bounded(Shape.Get(policy, "max_backoff_ms"), Number(policy, "initial_backoff_ms"), 60000)
  }

  predicate BoundedAttempt(attempt: Json) {
    && Bounded(Shape.Get(attempt, "attempts_completed"), 1, 8) && Bounded(Shape.Get(attempt, "elapsed_ms"), 0, 3600000)
    && Bounded(Shape.Get(attempt, "code"), 0, 16)
    && Shape.Get(attempt, "cancelled").Bool? && Shape.Get(attempt, "replay_safe").Bool?
    && Bounded(Shape.Get(attempt, "jitter_permille"), 0, 1000)
    && (Shape.Has(attempt, RETRY_AFTER) ==> Bounded(Shape.Get(attempt, RETRY_AFTER), 0, 3600000))
  }

  /** The planner as it is called, with any two JSON values. */
  function PlanScript(fl: real -> real, policy: Json, attempt: Json): Decision {
    if !IsRecord(policy, POLICY_KEYS, {}) || !IsRecord(attempt, ATTEMPT_KEYS, {RETRY_AFTER}) then Stop(InvalidInput)
    else if !BoundedPolicy(policy) || !BoundedAttempt(attempt) then Stop(InvalidInput)
    else PlanJs(fl, PolicyIn(policy), AttemptIn(attempt))
  }

  // ----- the three are one function -----

  function PolicyOf(p: Policy<u32>): Policy<int> {
    Policy(p.maxAttempts as int, p.timeoutMs as int, p.initialBackoffMs as int, p.maxBackoffMs as int)
  }

  function AttemptOf(a: Attempt<u32>): Attempt<int> {
    Attempt(a.attemptsCompleted as int, a.elapsedMs as int, a.code as int, a.cancelled, a.replaySafe, a.jitterPermille as int,
            if a.retryAfterMs.Some? then Some(a.retryAfterMs.value as int) else None)
  }

  lemma PowersOfTwo(n: nat)
    requires n <= 7
    ensures Pow2(n) == [1, 2, 4, 8, 16, 32, 64, 128][n]
  {
    assert Pow2(0) == 1 && Pow2(1) == 2 && Pow2(2) == 4 && Pow2(3) == 8;
    assert Pow2(4) == 16 && Pow2(5) == 32 && Pow2(6) == 64 && Pow2(7) == 128;
  }

  lemma RustIsDart(p: Policy<u32>, a: Attempt<u32>)
    ensures PlanRust(p, a) == PlanDart(PolicyOf(p), AttemptOf(a))
  {
    if Within(1, a.attemptsCompleted, 8) {
      PowersOfTwo(a.attemptsCompleted as int - 1);
    }
  }

  lemma ExactAt(fl: real -> real, n: int)
    requires ExactOnIntegers(fl) && -EXACT <= n <= EXACT
    ensures fl(n as real) == n as real
  {
    assert Whole(n as real);
  }

  /** Rounding twice on the way to a floor does not reach the next integer. */
  lemma RoundedQuotient(fl: real -> real, n: int)
    requires RelativeError(fl) && ExactOnIntegers(fl) && 0 <= n <= 60000000
    ensures fl(fl(n as real) / 1000.0).Floor == n / 1000
  {
    var (q, r) := (n / 1000, n % 1000);
    var x := n as real / 1000.0;
    ExactAt(fl, n);
    assert x == q as real + r as real / 1000.0;
    if r == 0 {
      ExactAt(fl, q);
    } else {
      assert Near(fl(x), x);
    }
  }

  lemma PowBound(n: nat)
    requires n <= 7
    ensures Pow2(n) <= 128
  {
    PowersOfTwo(n);
  }

  lemma ScaledIs(a: int, b: int)
    ensures Scaled(a as real, b) == (a * b) as real
  {
  }

  lemma ExponentialRange(initial: int, k: int)
    requires 0 <= initial <= 60000 && 1 <= k <= 8
    ensures 0 <= initial * Pow2(k - 1) <= 7680000
  {
    PowBound(k - 1);
    ProductBound(initial, Pow2(k - 1), 60000, 128);
  }

  lemma CapRange(p: Policy<int>, k: int)
    requires 0 <= p.initialBackoffMs <= 60000 && 0 <= p.maxBackoffMs <= 60000 && 1 <= k <= 8
    ensures 0 <= Cap(p, k) <= 60000 && Cap(p, k) <= p.maxBackoffMs
  {
    ExponentialRange(p.initialBackoffMs, k);
  }

  lemma JitterAgrees(fl: real -> real, p: Policy<int>, a: Attempt<int>)
    requires RelativeError(fl) && ExactOnIntegers(fl) && ValidInput(p, a)
    ensures JitteredJs(fl, p, a) == Jittered(p, a)
  {
    CapRange(p, a.attemptsCompleted);
    CapAgrees(fl, p, a.attemptsCompleted);
    QuotientOf(fl, CapJs(fl, p, a.attemptsCompleted), Cap(p, a.attemptsCompleted), a.jitterPermille);
  }

  lemma TruncatePositive(n: int)
    requires n >= 0
    ensures Truncate(n, 1000) == n / 1000
  {
  }

  lemma QuotientOf(fl: real -> real, x: real, cap: int, permille: int)
    requires RelativeError(fl) && ExactOnIntegers(fl) && x == cap as real && 0 <= cap <= 60000 && 0 <= permille <= 1000
    ensures ShareJs(fl, x, permille) == Share(cap, permille)
  {
    ProductBound(cap, permille, 60000, 1000);
    ScaledIs(cap, permille);
    QuotientOfReal(fl, Scaled(x, permille), cap * permille);
    TruncatePositive(cap * permille);
  }

  lemma QuotientOfReal(fl: real -> real, y: real, n: int)
    requires RelativeError(fl) && ExactOnIntegers(fl) && y == n as real && 0 <= n <= 60000000
    ensures fl(fl(y) / 1000.0).Floor == n / 1000
  {
    RoundedQuotient(fl, n);
  }

  lemma CapAgrees(fl: real -> real, p: Policy<int>, k: int)
    requires ExactOnIntegers(fl) && 1 <= k <= 8 && 0 <= p.initialBackoffMs <= 60000
    ensures CapJs(fl, p, k) == Cap(p, k) as real
  {
    var n := p.initialBackoffMs * Pow2(k - 1);
    ExponentialRange(p.initialBackoffMs, k);
    ExactProduct(fl, p.initialBackoffMs, Pow2(k - 1));
    LeastAgrees(fl(Scaled(p.initialBackoffMs as real, Pow2(k - 1))), n, p.maxBackoffMs);
  }

  lemma LeastAgrees(x: real, n: int, limit: int)
    requires x == n as real
    ensures LeastJs(x, limit) == Min(n, limit) as real
  {
  }

  lemma ExactProduct(fl: real -> real, a: int, b: int)
    requires ExactOnIntegers(fl) && 0 <= a * b <= 7680000
    ensures fl(Scaled(a as real, b)) == (a * b) as real
  {
    ScaledIs(a, b);
    ExactAt(fl, a * b);
  }

  lemma JsIsDart(fl: real -> real, p: Policy<int>, a: Attempt<int>)
    requires RelativeError(fl) && ExactOnIntegers(fl)
    ensures PlanJs(fl, p, a) == PlanDart(p, a)
  {
    if Refusal(p, a).None? {
      JitterAgrees(fl, p, a);
      var left := p.timeoutMs - a.elapsedMs;
      assert left as real == p.timeoutMs as real - a.elapsedMs as real;
      ExactAt(fl, left);
    }
  }

  function Int(n: int): Json { Num(n as real) }

  function PolicyRecord(p: Policy<int>): Json {
    Obj(map["max_attempts" := Int(p.maxAttempts), "timeout_ms" := Int(p.timeoutMs),
            "initial_backoff_ms" := Int(p.initialBackoffMs), "max_backoff_ms" := Int(p.maxBackoffMs)])
  }

  function AttemptRecord(a: Attempt<int>): Json {
    Obj(map["attempts_completed" := Int(a.attemptsCompleted), "elapsed_ms" := Int(a.elapsedMs), "code" := Int(a.code),
            "cancelled" := Bool(a.cancelled), "replay_safe" := Bool(a.replaySafe), "jitter_permille" := Int(a.jitterPermille)] +
        if a.retryAfterMs.Some? then map[RETRY_AFTER := Int(a.retryAfterMs.value)] else map[])
  }

  lemma IntRead(n: int)
    ensures IsInteger(Int(n)) && ToInt(Int(n)) == n
  {
  }

  lemma PolicyRead(p: Policy<int>)
    ensures IsRecord(PolicyRecord(p), POLICY_KEYS, {}) && PolicyIn(PolicyRecord(p)) == p
    ensures forall k | k in POLICY_KEYS :: IsInteger(Shape.Get(PolicyRecord(p), k))
  {
    IntRead(p.maxAttempts);
    IntRead(p.timeoutMs);
    IntRead(p.initialBackoffMs);
    IntRead(p.maxBackoffMs);
  }

  lemma AttemptMembers(a: Attempt<int>)
    ensures var j := AttemptRecord(a);
            && IsRecord(j, ATTEMPT_KEYS, {RETRY_AFTER}) && (Shape.Has(j, RETRY_AFTER) <==> a.retryAfterMs.Some?)
            && Shape.Get(j, "attempts_completed") == Int(a.attemptsCompleted) && Shape.Get(j, "elapsed_ms") == Int(a.elapsedMs)
            && Shape.Get(j, "code") == Int(a.code) && Shape.Get(j, "jitter_permille") == Int(a.jitterPermille)
            && Shape.Get(j, "cancelled") == Bool(a.cancelled) && Shape.Get(j, "replay_safe") == Bool(a.replaySafe)
            && (a.retryAfterMs.Some? ==> Shape.Get(j, RETRY_AFTER) == Int(a.retryAfterMs.value))
  {
  }

  lemma AttemptRead(a: Attempt<int>)
    ensures AttemptIn(AttemptRecord(a)) == a
  {
    AttemptMembers(a);
    IntRead(a.attemptsCompleted);
    IntRead(a.elapsedMs);
    IntRead(a.code);
    IntRead(a.jitterPermille);
    if a.retryAfterMs.Some? {
      IntRead(a.retryAfterMs.value);
    }
  }

  lemma PolicyBounds(p: Policy<int>, a: Attempt<int>)
    ensures BoundedPolicy(PolicyRecord(p)) && BoundedAttempt(AttemptRecord(a)) <==> ValidInput(p, a)
  {
    PolicyRead(p);
    AttemptMembers(a);
    AttemptRead(a);
  }

  /** Called with records of integers and booleans, the JavaScript planner is the integer planner. */
  lemma ScriptIsDart(fl: real -> real, p: Policy<int>, a: Attempt<int>)
    requires RelativeError(fl) && ExactOnIntegers(fl)
    ensures PlanScript(fl, PolicyRecord(p), AttemptRecord(a)) == PlanDart(p, a)
  {
    JsIsDart(fl, p, a);
    PolicyRead(p);
    AttemptMembers(a);
    AttemptRead(a);
    PolicyBounds(p, a);
  }

  lemma PolicyIsRecord(policy: Json)
    requires IsRecord(policy, POLICY_KEYS, {}) && BoundedPolicy(policy)
    ensures policy == PolicyRecord(PolicyIn(policy))
  {
    forall k | k in policy.members ensures policy.members[k] == Int(Number(policy, k)) {
      assert k in POLICY_KEYS;
    }
    assert policy.members == PolicyRecord(PolicyIn(policy)).members;
  }

  lemma AttemptIsRecord(attempt: Json)
    requires IsRecord(attempt, ATTEMPT_KEYS, {RETRY_AFTER}) && BoundedAttempt(attempt)
    ensures attempt == AttemptRecord(AttemptIn(attempt))
  {
    AttemptMembers(AttemptIn(attempt));
    assert attempt.members.Keys == AttemptRecord(AttemptIn(attempt)).members.Keys;
    forall k | k in attempt.members ensures attempt.members[k] == Shape.Get(AttemptRecord(AttemptIn(attempt)), k) {
      assert k in ATTEMPT_KEYS || k == RETRY_AFTER;
    }
    assert attempt.members == AttemptRecord(AttemptIn(attempt)).members;
  }

  /** Called with anything else it refuses, so a decision to retry was made on such records. */
  lemma RetriesAreOnRecords(fl: real -> real, policy: Json, attempt: Json)
    requires PlanScript(fl, policy, attempt).reason != InvalidInput
    ensures policy == PolicyRecord(PolicyIn(policy)) && attempt == AttemptRecord(AttemptIn(attempt))
  {
    PolicyIsRecord(policy);
    AttemptIsRecord(attempt);
  }

  /** On all 32-bit inputs, and whatever the rounding, the three planners return the same decision. */
  lemma PlannersAgree(fl: real -> real, p: Policy<u32>, a: Attempt<u32>)
    requires RelativeError(fl) && ExactOnIntegers(fl)
    ensures PlanRust(p, a) == PlanDart(PolicyOf(p), AttemptOf(a))
    ensures PlanDart(PolicyOf(p), AttemptOf(a)) == PlanScript(fl, PolicyRecord(PolicyOf(p)), AttemptRecord(AttemptOf(a)))
  {
    RustIsDart(p, a);
    ScriptIsDart(fl, PolicyOf(p), AttemptOf(a));
  }

  function Nudge(x: real): real { if x == 1.0 then 1.0 - 1.0 / 9007199254740992.0 else x }

  lemma NudgeIsNear()
    ensures RelativeError(Nudge)
  {
    forall x ensures Near(Nudge(x), x) {}
  }

  /** A small relative error alone does not give the same decisions: integers must be exact. */
  lemma RelativeErrorIsNotEnough(p: Policy<int>, a: Attempt<int>)
    requires p == Policy(2, 1000, 1, 1) && a == Attempt(1, 0, 14, false, true, 1000, None)
    ensures RelativeError(Nudge)
    ensures PlanDart(p, a) == Decision(true, 1, RetryNow)
    ensures PlanJs(Nudge, p, a) == Decision(true, 0, RetryNow)
  {
    NudgeIsNear();
    assert Pow2(0) == 1;
    assert Refusal(p, a).None? && ServerMinimum(a) == 0;
    assert Cap(p, 1) == 1 && Share(1, 1000) == 1;
    assert CapJs(Nudge, p, 1) == Nudge(1.0);
    assert JitteredJs(Nudge, p, a) == 0;
    assert Nudge(1000.0 - 0.0) == 1000.0;
  }

  // ----- what a run of a host may spend -----

  function Planner(p: Policy<int>): Attempt<int> -> Decision { (a: Attempt<int>) => PlanDart(p, a) }

  /** After a planned retry the clock has moved at least by the planned delay. */
  predicate Follows(plan: Attempt<int> -> Decision, a: Attempt<int>, b: Attempt<int>) {
    plan(a).retry && b.elapsedMs >= a.elapsedMs + plan(a).delayMs
  }

  /**
   * Observations after each failed send: sends are counted from one, and every observation but
   * the last was answered with a retry.
   */
  ghost predicate HostRun(plan: Attempt<int> -> Decision, run: seq<Attempt<int>>) {
    && run != []
    && (forall k | 0 <= k < |run| :: run[k].attemptsCompleted == k + 1)
    && (forall k, next | 0 <= k && next == k + 1 && next < |run| :: Follows(plan, run[k], run[next]))
  }

  function TotalDelay(plan: Attempt<int> -> Decision, run: seq<Attempt<int>>): int {
    if run == [] then 0 else TotalDelay(plan, run[..|run| - 1]) + plan(run[|run| - 1]).delayMs
  }

  /** The sends a run makes: one before each observation, and one more if the last was answered with a retry. */
  function Sends(plan: Attempt<int> -> Decision, run: seq<Attempt<int>>): nat
    requires run != []
  {
    |run| + if plan(run[|run| - 1]).retry then 1 else 0
  }

  lemma PrefixRun(plan: Attempt<int> -> Decision, run: seq<Attempt<int>>)
    requires HostRun(plan, run) && |run| > 1
    ensures HostRun(plan, run[..|run| - 1])
  {
    var before := run[..|run| - 1];
    forall k | 0 <= k < |before| ensures before[k].attemptsCompleted == k + 1 {
      assert before[k] == run[k];
    }
    forall k, next | 0 <= k && next == k + 1 && next < |before| ensures Follows(plan, before[k], before[next]) {
      assert Follows(plan, run[k], run[next]);
    }
  }

  lemma {:induction false} DelaysFitElapsed(plan: Attempt<int> -> Decision, run: seq<Attempt<int>>)
    requires HostRun(plan, run)
    ensures TotalDelay(plan, run[..|run| - 1]) <= run[|run| - 1].elapsedMs - run[0].elapsedMs
  {
    var n := |run| - 1;
    if n > 0 {
      PrefixRun(plan, run);
      DelaysFitElapsed(plan, run[..n]);
      assert run[..n][..n - 1] == run[..n - 1];
      assert Follows(plan, run[n - 1], run[n]);
    }
  }

  /** A planner that retries only within these budgets, and asks for no delay when it stops. */
  ghost predicate Frugal(plan: Attempt<int> -> Decision, maxAttempts: int, timeoutMs: int) {
    forall a ::
      && (plan(a).retry ==> a.attemptsCompleted < maxAttempts && 0 <= a.elapsedMs && a.elapsedMs + plan(a).delayMs < timeoutMs)
      && (!plan(a).retry ==> plan(a).delayMs == 0)
  }

  lemma RunOfFrugal(plan: Attempt<int> -> Decision, run: seq<Attempt<int>>, maxAttempts: int, timeoutMs: int)
    requires HostRun(plan, run) && Frugal(plan, maxAttempts, timeoutMs)
    ensures Sends(plan, run) > 1 ==> Sends(plan, run) <= maxAttempts && TotalDelay(plan, run) < timeoutMs
    ensures Sends(plan, run) == 1 ==> TotalDelay(plan, run) == 0
  {
    var n := |run| - 1;
    assert plan(run[0]).retry ==> 0 <= run[0].elapsedMs;
    if plan(run[n]).retry {
      DelaysFitElapsed(plan, run);
    } else if n > 0 {
      PrefixRun(plan, run);
      DelaysFitElapsed(plan, run[..n]);
      assert run[..n][..n - 1] == run[..n - 1];
      assert Follows(plan, run[n - 1], run[n]);
    }
    if n > 0 {
      assert Follows(plan, run[0], run[1]);
    }
  }

  lemma PlannerIsFrugal(p: Policy<int>)
    ensures Frugal(Planner(p), p.maxAttempts, p.timeoutMs)
  {
  }

  /** A run never sends more than `max_attempts` times, and all its delays together stay below the timeout. */
  lemma RunStaysInBudget(p: Policy<int>, run: seq<Attempt<int>>)
    requires HostRun(Planner(p), run)
    ensures Sends(Planner(p), run) > 1 ==> Sends(Planner(p), run) <= p.maxAttempts && TotalDelay(Planner(p), run) < p.timeoutMs
    ensures Sends(Planner(p), run) == 1 ==> TotalDelay(Planner(p), run) == 0
  {
    PlannerIsFrugal(p);
    RunOfFrugal(Planner(p), run, p.maxAttempts, p.timeoutMs);
  }

  lemma Fraction(cap: int, permille: int)
    requires cap >= 0 && 0 <= permille <= 1000
    ensures 0 <= cap * permille / 1000 <= cap
  {
    assert 0 <= cap * permille <= cap * 1000;
  }

  /** A planned delay is at least the server's minimum and at most that or the capped backoff. */
  lemma DelayBounds(p: Policy<int>, a: Attempt<int>)
    requires PlanDart(p, a).retry
    ensures var d := PlanDart(p, a).delayMs;
            && ServerMinimum(a) <= d <= Max(Cap(p, a.attemptsCompleted), ServerMinimum(a))
            && Cap(p, a.attemptsCompleted) <= p.maxBackoffMs
  {
    CapRange(p, a.attemptsCompleted);
    Fraction(Cap(p, a.attemptsCompleted), a.jitterPermille);
  }
}
