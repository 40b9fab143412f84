// The retry policy: outcome classes, backoff arithmetic in int64, the decision
// (delivery-api/internal/dispatch/policy.go, worker.go).
module Policy {
  import opened Common
  import opened MessageTables

  /** Go's int64, time.Duration and int: arithmetic that leaves the range does not verify. */
  newtype int64 = x: int | -0x8000_0000_0000_0000 <= x < 0x8000_0000_0000_0000

  const BASE_BACKOFF: int64 := 30_000_000_000
  const MAX_BACKOFF: int64 := 3_600_000_000_000
  const MAX_RETRY_AFTER: int64 := 3_600_000_000_000
  const MAX_CLAIM_BACKOFF: int64 := 30_000_000_000
  const MAX_CLAIM_BACKOFF_SHIFT: int64 := 5
  const MAX_BUDGET_ATTEMPTS: nat := 12
  const MAX_BUDGET_AGE: Time := 24 * HOUR

  function Pow2(n: nat): (p: nat)
    ensures p >= 1
  {
    if n == 0 then 1 else 2 * Pow2(n - 1)
  }

  lemma {:induction false} Pow2Monotone(a: nat, b: nat)
    requires a <= b
    ensures Pow2(a) <= Pow2(b)
    decreases b
  {
    if a < b { Pow2Monotone(a, b - 1); }
  }

  // ----- Backoff --------------------------------------------------------------

  /** 30 s doubled per attempt after the first, at most an hour. */
  function Ceiling(budgetAttempts: int): (c: Time)
  {
    Min(BASE_BACKOFF as int * Pow2(Max(budgetAttempts, 1) - 1), MAX_BACKOFF as int)
  }

  /** A jitter source: None is a missing source or NaN. */
  function JitterFraction(random: Option<real>): (f: real)
    ensures 0.0 <= f <= 1.0
  {
    if random.None? || random.value < 0.0 then 0.0 else if random.value > 1.0 then 1.0 else random.value
  }

  /** Half the ceiling and a random share of the other half. */
  function Jittered(half: Time, fraction: real): Time
  {
    half + (fraction * half as real).Floor
  }

  /** What the endpoint asked for, up to an hour; 0 when it asked for nothing. */
  function Asked(retryAfter: Option<int64>): (t: Time)
    ensures 0 <= t <= HOUR
  {
    if retryAfter.Some? && retryAfter.value > 0 then Min(retryAfter.value as int, MAX_RETRY_AFTER as int) else 0
  }

  function Delay(budgetAttempts: int, retryAfter: Option<int64>, random: Option<real>): Time
  {
    Max(Jittered(Ceiling(budgetAttempts) / 2, JitterFraction(random)), Asked(retryAfter))
  }

  lemma CeilingBounds(budgetAttempts: int)
    ensures BASE_BACKOFF as int <= Ceiling(budgetAttempts) <= MAX_BACKOFF as int
  {
    Pow2Monotone(0, Max(budgetAttempts, 1) - 1);
  }

  /** 30 s after the first attempt, doubling per attempt after it up to an hour. */
  lemma CeilingDoubles(budgetAttempts: int)
    ensures budgetAttempts <= 1 ==> Ceiling(budgetAttempts) == 30 * SECOND
    ensures budgetAttempts >= 1 ==> Ceiling(budgetAttempts + 1) == Min(2 * Ceiling(budgetAttempts), HOUR)
  {
  }

  /** The jitter runs from half the ceiling to all of it, in step with the random share, which is clamped to [0, 1]. */
  lemma JitterSpans(half: Time, x: real)
    requires half >= 0
    ensures x <= 0.0 ==> Jittered(half, JitterFraction(Some(x))) == half
    ensures x >= 1.0 ==> Jittered(half, JitterFraction(Some(x))) == 2 * half
    ensures 0.0 <= x <= 1.0 ==> var share := Jittered(half, JitterFraction(Some(x))) - half;
      share as real <= x * half as real < share as real + 1.0
    ensures Jittered(half, JitterFraction(None)) == half
  {
    if 0.0 <= x <= 1.0 { assert (x * half as real).Floor as real <= x * half as real; }
    if x >= 1.0 { assert 1.0 * half as real == half as real; }
  }

  /** A longer wait asked for, up to an hour, replaces the jittered one; a shorter one does not. */
  lemma RetryAfterRaises(budgetAttempts: int, seconds: int64, random: Option<real>)
    ensures var plain, asked := Delay(budgetAttempts, None, random), Delay(budgetAttempts, Some(seconds), random);
      asked == if seconds as int <= plain then plain else Min(seconds as int, HOUR)
  {
    DelayBounds(budgetAttempts, None, random);
  }

  lemma JitteredBounds(half: Time, fraction: real)
    requires 0.0 <= fraction <= 1.0 && half >= 0
    ensures half <= Jittered(half, fraction) <= 2 * half
  {
    assert 0.0 <= fraction * half as real <= half as real;
  }

  /** The delay lies in [ceiling/2, 1 h], honours Retry-After, and without one never exceeds the ceiling. */
  lemma DelayBounds(budgetAttempts: int, retryAfter: Option<int64>, random: Option<real>)
    ensures 15 * SECOND <= Ceiling(budgetAttempts) / 2 <= Delay(budgetAttempts, retryAfter, random) <= HOUR
    ensures retryAfter == None ==> Delay(budgetAttempts, retryAfter, random) <= Ceiling(budgetAttempts)
    ensures retryAfter.Some? && retryAfter.value > 0 ==>
      Delay(budgetAttempts, retryAfter, random) >= Min(retryAfter.value as int, HOUR)
  {
    CeilingBounds(budgetAttempts);
    JitteredBounds(Ceiling(budgetAttempts) / 2, JitterFraction(random));
  }

  /** The doubling loop stops at the closed form and never leaves int64. */
  method BackoffCeiling(budgetAttempts: int64) returns (ceiling: int64)
    ensures ceiling as int == Ceiling(budgetAttempts as int)
  {
    ceiling := BASE_BACKOFF;
    var attempt: int64 := 1;
    while attempt < budgetAttempts && ceiling < MAX_BACKOFF
      invariant 1 <= attempt && attempt as int <= Max(budgetAttempts as int, 1)
      invariant ceiling as int == BASE_BACKOFF as int * Pow2(attempt as int - 1)
      invariant BASE_BACKOFF <= ceiling < 2 * MAX_BACKOFF
      decreases budgetAttempts as int - attempt as int
    {
      ceiling := ceiling * 2;
      attempt := attempt + 1;
    }
    if attempt < budgetAttempts { Pow2Monotone(attempt as int - 1, budgetAttempts as int - 1); }
    ceiling := if ceiling < MAX_BACKOFF then ceiling else MAX_BACKOFF;
  }

  method Jitter(half: int64, fraction: real) returns (backoff: int64)
    requires 0 <= half <= MAX_BACKOFF && 0.0 <= fraction <= 1.0
    ensures backoff as int == Jittered(half as int, fraction)
  {
    JitteredBounds(half as int, fraction);
    var share := (fraction * half as int as real).Floor;
    backoff := half + share as int64;
  }

  method Backoff(budgetAttempts: int64, retryAfter: Option<int64>, random: Option<real>) returns (backoff: int64)
    ensures backoff as int == Delay(budgetAttempts as int, retryAfter, random)
  {
    var ceiling := BackoffCeiling(budgetAttempts);
    CeilingBounds(budgetAttempts as int);
    backoff := Jitter(ceiling / 2, JitterFraction(random));
    JitteredBounds(ceiling as int / 2, JitterFraction(random));
    if retryAfter.Some? && retryAfter.value > 0 {
      var asked := if retryAfter.value < MAX_RETRY_AFTER then retryAfter.value else MAX_RETRY_AFTER;
      if backoff < asked { backoff := asked; }
    }
  }

  /** Subtraction wraps at the least integer. */
  function LessOne(n: int64): (m: int64)
    ensures n >= 1 ==> m as int == n as int - 1
  {
    if n == -0x8000_0000_0000_0000 then 0x7fff_ffff_ffff_ffff else n - 1
  }

  /** Shifts by s are division and multiplication by 2^s; the shifted-down test keeps them in range. */
  method ClaimBackoff(pollInterval: int64, failures: int64) returns (wait: int64)
    requires pollInterval > 0
    ensures wait as int == Min(pollInterval as int * Pow2(Min(Max(LessOne(failures) as int, 0), 5)),
                               Max(MAX_CLAIM_BACKOFF as int, pollInterval as int))
  {
    var shift := LessOne(failures);
    if shift < 0 { shift := 0; }
    if MAX_CLAIM_BACKOFF_SHIFT < shift { shift := MAX_CLAIM_BACKOFF_SHIFT; }
    var ceiling := if MAX_CLAIM_BACKOFF < pollInterval then pollInterval else MAX_CLAIM_BACKOFF;
    Pow2Monotone(shift as int, 5);
    assert Pow2(5) == 32;
    var factor := Pow2(shift as int) as int64;
    DivideBack(ceiling as int, factor as int, pollInterval as int);
    if pollInterval > ceiling / factor { return ceiling; }
    wait := pollInterval * factor;
  }

  lemma DivideBack(c: nat, k: nat, p: nat)
    requires k >= 1
    ensures p > c / k <==> p * k > c
  {
    if p > c / k { assert p * k >= (c / k + 1) * k; }
    if p <= c / k { assert p * k <= (c / k) * k; }
  }

  // ----- Classes and decisions ----------------------------------------------------

  datatype SinkError = NoError | BlockedError | InvalidDelivery | TransportError

  datatype SinkOutcome = SinkOutcome(error: SinkError, statusCode: int, gone: bool, retryAfter: Option<int64>)

  function Classify(o: SinkOutcome): Outcome
  {
    match o.error
    case BlockedError => Blocked
    case InvalidDelivery => Terminal
    case TransportError => Retryable
    case NoError =>
      if 200 <= o.statusCode <= 299 then Success
      else if o.statusCode == 410 || o.gone then Gone
      else if o.statusCode == 408 || o.statusCode == 429 || 500 <= o.statusCode <= 599 then Retryable
      else Terminal
  }

  /** An answer worth another try: no answer at all, or 408, 429 or a server error that does not say gone. */
  predicate WorthRetrying(o: SinkOutcome)
  {
    || o.error == TransportError
    || (o.error == NoError && !o.gone && (o.statusCode in {408, 429} || 500 <= o.statusCode < 600))
  }

  predicate Accepted(o: SinkOutcome) { o.error == NoError && 200 <= o.statusCode < 300 }

  /** Gone is a 410, or any answer that is not a success and says so. */
  predicate SaysGone(o: SinkOutcome) { o.error == NoError && !Accepted(o) && (o.statusCode == 410 || o.gone) }

  /** Every answer falls in exactly one class, by its code; anything not listed is terminal. */
  lemma ClassesMean(o: SinkOutcome)
    ensures Classify(o) == Success <==> Accepted(o)
    ensures Classify(o) == Gone <==> SaysGone(o)
    ensures Classify(o) == Blocked <==> o.error == BlockedError
    ensures Classify(o) == Retryable <==> WorthRetrying(o)
    ensures Classify(o) == Terminal <==> !Accepted(o) && !SaysGone(o) && o.error != BlockedError && !WorthRetrying(o)
  {
  }

  function DeadResult(r: AttemptResult, reason: string): AttemptResult
  {
    r.(nextState := Dead, deadReason := Some(reason))
  }

  function Decide(d: Delivery, o: SinkOutcome, now: Time, random: Option<real>): AttemptResult
  {
    var status := if o.statusCode > 0 then Some(o.statusCode) else None;
    var r := AttemptResult(Classify(o), status, now, Pending, None, 0);
    match Classify(o)
    case Success => r.(nextState := Delivered)
    case Gone => DeadResult(r, "gone")
    case Blocked => DeadResult(r, "blocked_address")
    case Retryable =>
      if d.budgetAttempts >= MAX_BUDGET_ATTEMPTS - 1 || now - d.budgetStartedAt >= MAX_BUDGET_AGE
      then DeadResult(r, "budget_exhausted")
      else r.(nextAttemptAt := now + Delay(d.budgetAttempts + 1, o.retryAfter, random))
    case Terminal => DeadResult(r, "terminal_status")
  }

  /** A delivery that could not be sent at all is dead-lettered with a fixed reason. */
  function NeverSent(now: Time, reason: string): AttemptResult
  {
    AttemptResult(Terminal, None, now, Dead, Some(reason), 0)
  }

  /** RecordAttempt accepts every decision but a retry due exactly at the zero time. */
  lemma DecisionsAreRecordable(d: Delivery, o: SinkOutcome, now: Time, random: Option<real>)
    ensures var r := Decide(d, o, now, random);
      ValidResult(r) <==> !(r.nextState == Pending && now + Delay(d.budgetAttempts + 1, o.retryAfter, random) == 0)
    ensures now >= 0 ==> ValidResult(Decide(d, o, now, random))
  {
    DelayBounds(d.budgetAttempts + 1, o.retryAfter, random);
  }

  /** A retry is given exactly for an answer worth another try with budget left, 15 s to an hour ahead. */
  lemma RetryExactlyWithinBudget(d: Delivery, o: SinkOutcome, now: Time, random: Option<real>)
    ensures var r := Decide(d, o, now, random);
      && (r.nextState == Pending <==> WorthRetrying(o) && d.budgetAttempts < 11 && now - d.budgetStartedAt < 24 * HOUR)
      && (r.nextState == Pending ==> now + 15 * SECOND <= r.nextAttemptAt <= now + HOUR)
      && (r.nextState == Pending ==> r.nextAttemptAt == now + Delay(d.budgetAttempts + 1, o.retryAfter, random))
      && (r.nextState == Delivered <==> o.error == NoError && 200 <= o.statusCode <= 299)
  {
    DelayBounds(d.budgetAttempts + 1, o.retryAfter, random);
  }

  /** What a decision records: the class, the code if there was one, the start, and on death exactly one reason. */
  lemma DecisionsSayWhy(d: Delivery, o: SinkOutcome, now: Time, random: Option<real>)
    ensures var r := Decide(d, o, now, random);
      && r.outcome == Classify(o) && r.startedAt == now
      && r.statusCode == (if o.statusCode > 0 then Some(o.statusCode) else None)
      && (r.nextState in {Pending, Delivered} <==> r.deadReason.None?)
      && (r.deadReason == Some("gone") <==> SaysGone(o))
      && (r.deadReason == Some("blocked_address") <==> o.error == BlockedError)
      && (r.deadReason == Some("budget_exhausted") <==> WorthRetrying(o) && r.nextState != Pending)
      && (r.deadReason == Some("terminal_status") <==> Classify(o) == Terminal)
  {
    DeadReasonsDiffer();
  }

  lemma DeadReasonsDiffer()
    ensures "blocked_address" != "terminal_status"
  {
    assert "blocked_address"[0] != "terminal_status"[0];
  }
}
