/** The pure decisions of `_core/policies.py`: what may be retried, and after how long. */
module Policies {
  import opened Wrappers

  datatype Category =
    | Configuration | Routing | Availability | Connection | Pool | Timeout | Lock | Concurrency
    | Integrity | Programming | Permission | Transaction | Cancelled | Result | Resilience | Unsupported

  /** The part of a classified error that the retry loop and the breaker look at. */
  datatype DbError = DbError(category: Category, retryable: bool, stateUnknown: bool)

  /** DatabaseCommitUnknownError: not retryable, and its transaction state is unknown. */
  const COMMIT_UNKNOWN := DbError(Transaction, false, true)

  /** The error categories that say the backend is unhealthy. */
  predicate CountsAsFailure(e: DbError) {
    e.category in {Availability, Connection, Pool, Timeout}
  }

  datatype Query = Query(isWrite: bool, idempotent: bool)

  datatype RetryConfig = RetryConfig(attempts: int, initialDelayMs: real, maximumDelayMs: real,
                                     multiplier: real, fullJitter: bool, maximumTotalMs: real,
                                     retryReads: bool, retryWrites: bool)

  predicate IsIdempotent(query: Option<Query>, override: Option<bool>) {
    match override
    case Some(b) => b
    case None => query.Some? && query.value.idempotent
  }

  /** `attempt` is 1-based: the attempt that just failed. */
  predicate ShouldRetry(e: DbError, query: Option<Query>, config: RetryConfig, attempt: int,
                        override: Option<bool>)
  {
    if attempt >= config.attempts then false
    else if !e.retryable then false
    else if e.stateUnknown then false
    else if query.Some? && query.value.isWrite then
      config.retryWrites && IsIdempotent(query, override)
    else config.retryReads
  }

  function Power(x: real, n: nat): real {
    if n == 0 then 1.0 else x * Power(x, n - 1)
  }

  /** Whether `delay` seconds is a back-off the policy can draw after this attempt. */
  ghost predicate IsBackoff(delay: real, attempt: int, config: RetryConfig) {
    exists rand :: 0.0 <= rand < 1.0 && delay == BackoffDelayMs(attempt, config, rand) / 1000.0
  }

  function Jittered(exp: real, maximum: real, fullJitter: bool, rand: real): real {
    var capped := if exp <= maximum then exp else maximum;
    if fullJitter then capped * rand else capped
  }

  function Exponential(initial: real, multiplier: real, attempt: int): real {
    initial * Power(multiplier, if attempt > 1 then attempt - 1 else 0)
  }

  function BackoffDelayMs(attempt: int, config: RetryConfig, rand: real): real {
    Jittered(Exponential(config.initialDelayMs, config.multiplier, attempt), config.maximumDelayMs,
             config.fullJitter, rand)
  }

  lemma JitteredIsCapped(exp: real, maximum: real, fullJitter: bool, rand: real)
    requires exp >= 0.0 && maximum >= 0.0 && 0.0 <= rand < 1.0
    ensures 0.0 <= Jittered(exp, maximum, fullJitter, rand) <= maximum
  {
    var capped := if exp <= maximum then exp else maximum;
    var scaled := capped * rand;
    assert 0.0 <= scaled <= capped by {
      JitterShrinks(capped, rand);
    }
    assert Jittered(exp, maximum, fullJitter, rand) == if fullJitter then scaled else capped;
  }

  /** With non-negative settings a delay is never negative and never above the maximum. */
  lemma BackoffIsCapped(attempt: int, config: RetryConfig, rand: real)
    requires config.initialDelayMs >= 0.0 && config.multiplier >= 0.0 && config.maximumDelayMs >= 0.0
    requires 0.0 <= rand < 1.0
    ensures 0.0 <= BackoffDelayMs(attempt, config, rand) <= config.maximumDelayMs
  {
    ExponentialNonNegative(config.initialDelayMs, config.multiplier, attempt);
    JitteredIsCapped(Exponential(config.initialDelayMs, config.multiplier, attempt), config.maximumDelayMs,
                     config.fullJitter, rand);
  }

  lemma ExponentialNonNegative(initial: real, multiplier: real, attempt: int)
    requires initial >= 0.0 && multiplier >= 0.0
    ensures Exponential(initial, multiplier, attempt) >= 0.0
  {
    var n := if attempt > 1 then attempt - 1 else 0;
    PowerNonNegative(multiplier, n);
    ProductNonNegative(initial, Power(multiplier, n));
  }

  lemma ExponentialGrows(initial: real, multiplier: real, attempt: nat)
    requires attempt >= 1
    ensures Exponential(initial, multiplier, 1) == initial
    ensures Exponential(initial, multiplier, attempt + 1) == Exponential(initial, multiplier, attempt) * multiplier
  {
    var p := Power(multiplier, attempt - 1);
    assert Power(multiplier, attempt) == multiplier * p;
    Reorder(initial, multiplier, p);
  }

  lemma JitteredIsLess(exp: real, maximum: real, fullJitter: bool, rand: real)
    requires exp >= 0.0 && maximum >= 0.0 && 0.0 <= rand < 1.0
    ensures Jittered(exp, maximum, fullJitter, rand) <= Jittered(exp, maximum, false, 0.0)
  {
    var longest := Least(exp, maximum);
    var scaled := longest * rand;
    assert scaled <= longest by {
      JitterShrinks(longest, rand);
    }
    assert Jittered(exp, maximum, fullJitter, rand) == if fullJitter then scaled else longest;
  }

  /** Full jitter multiplies the delay by the random draw, and so never lengthens it. */
  lemma JitterOnlyShortens(attempt: int, config: RetryConfig, rand: real)
    requires 0.0 <= rand < 1.0
    requires config.initialDelayMs >= 0.0 && config.multiplier >= 0.0 && config.maximumDelayMs >= 0.0
    ensures var longest := BackoffDelayMs(attempt, config.(fullJitter := false), 0.0);
            && BackoffDelayMs(attempt, config, rand) <= longest
            && BackoffDelayMs(attempt, config, rand) == Scaled(longest, config.fullJitter, rand)
  {
    var exp := Exponential(config.initialDelayMs, config.multiplier, attempt);
    ExponentialNonNegative(config.initialDelayMs, config.multiplier, attempt);
    JitteredIsLess(exp, config.maximumDelayMs, config.fullJitter, rand);
  }

  function Scaled(longest: real, fullJitter: bool, rand: real): real {
    if fullJitter then longest * rand else longest
  }

  /** Without jitter the first delay is the initial one, each further one is the one before times the
      multiplier, and both are cut at the maximum; with a multiplier of at least one they never shrink. */
  lemma BackoffGrows(attempt: nat, config: RetryConfig)
    requires attempt >= 1 && !config.fullJitter && config.maximumDelayMs >= 0.0
    requires config.initialDelayMs >= 0.0 && config.multiplier >= 0.0
    ensures var delay, next := BackoffDelayMs(attempt, config, 0.0), BackoffDelayMs(attempt + 1, config, 0.0);
            && (attempt == 1 ==> delay == Least(config.initialDelayMs, config.maximumDelayMs))
            && (delay < config.maximumDelayMs ==> next == Least(delay * config.multiplier, config.maximumDelayMs))
            && (config.multiplier >= 1.0 ==> delay <= next <= config.maximumDelayMs)
  {
    ExponentialNonNegative(config.initialDelayMs, config.multiplier, attempt);
    ExponentialGrows(config.initialDelayMs, config.multiplier, attempt);
    CappedGrows(Exponential(config.initialDelayMs, config.multiplier, attempt),
                Exponential(config.initialDelayMs, config.multiplier, attempt + 1), config.multiplier,
                config.maximumDelayMs);
  }

  lemma CappedGrows(exp: real, next: real, multiplier: real, maximum: real)
    requires exp >= 0.0 && multiplier >= 0.0 && maximum >= 0.0 && next == exp * multiplier
    ensures exp < maximum ==> Least(next, maximum) == Least(Least(exp, maximum) * multiplier, maximum)
    ensures multiplier >= 1.0 ==> exp <= next && Least(exp, maximum) <= Least(next, maximum)
  {
    if multiplier >= 1.0 {
      var more := exp * (multiplier - 1.0);
      ProductNonNegative(exp, multiplier - 1.0);
      assert next == exp + more;
    }
  }

  function Least(x: real, y: real): real {
    if x <= y then x else y
  }

  lemma Reorder(x: real, y: real, z: real)
    ensures x * (y * z) == (x * z) * y
  {}

  lemma ProductNonNegative(x: real, y: real)
    requires x >= 0.0 && y >= 0.0
    ensures x * y >= 0.0
  {}

  lemma JitterShrinks(x: real, rand: real)
    requires x >= 0.0 && 0.0 <= rand < 1.0
    ensures 0.0 <= x * rand <= x
  {
    ProductNonNegative(x, rand);
    ProductNonNegative(x, 1.0 - rand);
    assert x * (1.0 - rand) == x - x * rand;
  }

  lemma {:induction false} PowerNonNegative(x: real, n: nat)
    requires x >= 0.0
    ensures Power(x, n) >= 0.0
  {
    if n > 0 {
      PowerNonNegative(x, n - 1);
    }
  }
}
