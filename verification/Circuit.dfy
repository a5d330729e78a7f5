/** The circuit breaker of `_core/circuit.py`: a clocked state machine with a rolling window.
    The pure step functions say what one call does; class CircuitBreaker is the mutable object. */
module Circuit {
  datatype CircuitState = Closed | Open | HalfOpen

  /** The constructor arguments. Only the threshold is range-checked by the configuration. */
  datatype Settings = Settings(failureThreshold: int, windowSeconds: real, openSeconds: real,
                               halfOpenMaxCalls: int)

  datatype Breaker = Breaker(state: CircuitState, failures: seq<real>, openedAt: real, halfOpenCalls: int)

  datatype Event = ReadState | Allow | Success | Failure

  /** One call on the breaker, with the monotonic timestamp it is given. */
  datatype Call = Call(event: Event, now: real)

  const INITIAL := Breaker(Closed, [], 0.0, 0)

  // ---- one call ----------------------------------------------------------------

  /** Popping from the front while the oldest entry is before the cutoff. */
  function PruneFront(failures: seq<real>, cutoff: real): seq<real> {
    if failures != [] && failures[0] < cutoff then PruneFront(failures[1..], cutoff) else failures
  }

  function Tripped(b: Breaker, now: real): Breaker {
    b.(state := Open, openedAt := now, failures := [], halfOpenCalls := 0)
  }

  function AfterState(c: Settings, b: Breaker, now: real): Breaker {
    if b.state == Open && now - b.openedAt >= c.openSeconds
    then b.(state := HalfOpen, halfOpenCalls := 0)
    else b
  }

  /** Whether `allow` answers true. */
  predicate Admits(c: Settings, b: Breaker, now: real) {
    var s := AfterState(c, b, now);
    s.state == Closed || (s.state == HalfOpen && s.halfOpenCalls < c.halfOpenMaxCalls)
  }

  function AfterAllow(c: Settings, b: Breaker, now: real): Breaker {
    var s := AfterState(c, b, now);
    if s.state == HalfOpen && s.halfOpenCalls < c.halfOpenMaxCalls
    then s.(halfOpenCalls := s.halfOpenCalls + 1)
    else s
  }

  function AfterSuccess(c: Settings, b: Breaker, now: real): Breaker {
    match b.state
    case HalfOpen => b.(state := Closed, failures := [], halfOpenCalls := 0)
    case Closed => b.(failures := PruneFront(b.failures, now - c.windowSeconds))
    case Open => b
  }

  function AfterFailure(c: Settings, b: Breaker, now: real): Breaker {
    if b.state == HalfOpen then Tripped(b, now)
    else
      var recent := PruneFront(b.failures + [now], now - c.windowSeconds);
      if |recent| >= c.failureThreshold then Tripped(b, now) else b.(failures := recent)
  }

  function Step(c: Settings, b: Breaker, call: Call): Breaker {
    match call.event
    case ReadState => AfterState(c, b, call.now)
    case Allow => AfterAllow(c, b, call.now)
    case Success => AfterSuccess(c, b, call.now)
    case Failure => AfterFailure(c, b, call.now)
  }

  // ---- whole runs --------------------------------------------------------------

  function Run(c: Settings, b: Breaker, calls: seq<Call>): Breaker
    decreases |calls|
  {
    if calls == [] then b else Run(c, Step(c, b, calls[0]), calls[1..])
  }

  /** How many `allow` calls of the run answer true. */
  function Admitted(c: Settings, b: Breaker, calls: seq<Call>): nat
    decreases |calls|
  {
    if calls == [] then 0
    else (if calls[0].event == Allow && Admits(c, b, calls[0].now) then 1 else 0)
         + Admitted(c, Step(c, b, calls[0]), calls[1..])
  }

  /** The breaker is not CLOSED before the run, nor after any of its calls. */
  predicate NeverClosed(c: Settings, b: Breaker, calls: seq<Call>)
    decreases |calls|
  {
    b.state != Closed && (calls != [] ==> NeverClosed(c, Step(c, b, calls[0]), calls[1..]))
  }

  /** The clock never goes back, starts no earlier than `first`, and ends by `last`. */
  predicate Within(calls: seq<Call>, first: real, last: real) {
    if calls == [] then first <= last
    else first <= calls[0].now && Within(calls[1..], calls[0].now, last)
  }

  lemma {:induction false} RunSplits(c: Settings, b: Breaker, xs: seq<Call>, ys: seq<Call>)
    ensures Run(c, b, xs + ys) == Run(c, Run(c, b, xs), ys)
    decreases |xs|
  {
    if xs == [] {
      assert xs + ys == ys;
    } else {
      assert (xs + ys)[0] == xs[0] && (xs + ys)[1..] == xs[1..] + ys;
      RunSplits(c, Step(c, b, xs[0]), xs[1..], ys);
    }
  }

  lemma {:induction false} AdmittedSplits(c: Settings, b: Breaker, xs: seq<Call>, ys: seq<Call>)
    ensures Admitted(c, b, xs + ys) == Admitted(c, b, xs) + Admitted(c, Run(c, b, xs), ys)
    decreases |xs|
  {
    if xs == [] {
      assert xs + ys == ys;
    } else {
      assert (xs + ys)[0] == xs[0] && (xs + ys)[1..] == xs[1..] + ys;
      AdmittedSplits(c, Step(c, b, xs[0]), xs[1..], ys);
    }
  }

  lemma {:induction false} NeverClosedSplits(c: Settings, b: Breaker, xs: seq<Call>, ys: seq<Call>)
    ensures NeverClosed(c, b, xs + ys) <==> NeverClosed(c, b, xs) && NeverClosed(c, Run(c, b, xs), ys)
    decreases |xs|
  {
    if xs == [] {
      assert xs + ys == ys;
    } else {
      assert (xs + ys)[0] == xs[0] && (xs + ys)[1..] == xs[1..] + ys;
      NeverClosedSplits(c, Step(c, b, xs[0]), xs[1..], ys);
    }
  }

  lemma {:induction false} WithinSplits(xs: seq<Call>, ys: seq<Call>, first: real, mid: real, last: real)
    requires Within(xs, first, mid) && Within(ys, mid, last)
    ensures Within(xs + ys, first, last)
  {
    if xs == [] {
      assert xs + ys == ys;
      WithinStartsEarlier(ys, first, mid, last);
    } else {
      assert (xs + ys)[0] == xs[0] && (xs + ys)[1..] == xs[1..] + ys;
      WithinSplits(xs[1..], ys, xs[0].now, mid, last);
    }
  }

  lemma {:induction false} WithinStartsEarlier(ys: seq<Call>, first: real, mid: real, last: real)
    requires first <= mid && Within(ys, mid, last)
    ensures Within(ys, first, last)
  {}

  // ---- when a call is denied ---------------------------------------------------------

  /** Why `allow` may answer false: the cooldown is not over, or the trials are used up. */
  predicate Denies(c: Settings, b: Breaker, now: real) {
    || (b.state == Open && now - b.openedAt < c.openSeconds)
    || (b.state == Open && now - b.openedAt >= c.openSeconds && c.halfOpenMaxCalls <= 0)
    || (b.state == HalfOpen && b.halfOpenCalls >= c.halfOpenMaxCalls)
  }

  /** How many calls of the run are of this kind. */
  function Count(calls: seq<Call>, event: Event): nat {
    if calls == [] then 0 else (if calls[0].event == event then 1 else 0) + Count(calls[1..], event)
  }

  lemma {:induction false} CountConcat(a: seq<Call>, b: seq<Call>, event: Event)
    ensures Count(a + b, event) == Count(a, event) + Count(b, event)
  {
    if a == [] {
      assert a + b == b;
    } else {
      assert (a + b)[0] == a[0] && (a + b)[1..] == a[1..] + b;
      CountConcat(a[1..], b, event);
    }
  }

  /** The i-th call of a run is an `allow` that is denied. */
  predicate DeniedAt(c: Settings, b: Breaker, calls: seq<Call>, i: nat)
    requires i < |calls|
  {
    calls[i].event == Allow && !Admits(c, Run(c, b, calls[..i]), calls[i].now)
  }

  /** Over every run from any state an `allow` is denied exactly when the breaker is then OPEN with less
      than the cooldown elapsed, or HALF_OPEN, now or by this call, with all trials used. */
  lemma DeniedExactlyWhen(c: Settings, b: Breaker, calls: seq<Call>, i: nat)
    requires i < |calls|
    ensures DeniedAt(c, b, calls, i)
            <==> calls[i].event == Allow && Denies(c, Run(c, b, calls[..i]), calls[i].now)
  {}

  /** The breaker is CLOSED before the run and after each of its calls. */
  predicate AlwaysClosed(c: Settings, b: Breaker, calls: seq<Call>)
    decreases |calls|
  {
    b.state == Closed && (calls != [] ==> AlwaysClosed(c, Step(c, b, calls[0]), calls[1..]))
  }

  /** A run that stays CLOSED admits every call that asks. */
  lemma {:induction false} ClosedAdmitsAll(c: Settings, b: Breaker, calls: seq<Call>)
    requires AlwaysClosed(c, b, calls)
    ensures Admitted(c, b, calls) == Count(calls, Allow)
    decreases |calls|
  {
    if calls != [] {
      ClosedAdmitsAll(c, Step(c, b, calls[0]), calls[1..]);
    }
  }

  lemma {:induction false} PruneShrinks(failures: seq<real>, cutoff: real)
    ensures |PruneFront(failures, cutoff)| <= |failures|
  {
    if failures != [] && failures[0] < cutoff {
      PruneShrinks(failures[1..], cutoff);
    }
  }

  lemma {:induction false} FewFailuresStayClosed(c: Settings, b: Breaker, calls: seq<Call>)
    requires b.state == Closed && |b.failures| + Count(calls, Failure) < c.failureThreshold
    ensures AlwaysClosed(c, b, calls)
    decreases |calls|
  {
    if calls != [] {
      var call := calls[0];
      PruneShrinks(b.failures, call.now - c.windowSeconds);
      PruneShrinks(b.failures + [call.now], call.now - c.windowSeconds);
      FewFailuresStayClosed(c, Step(c, b, call), calls[1..]);
    }
  }

  /** Main result. A new breaker admits every call of a run with fewer failures than the threshold. */
  lemma HealthyAdmitsAll(c: Settings, calls: seq<Call>)
    requires Count(calls, Failure) < c.failureThreshold
    ensures Admitted(c, INITIAL, calls) == Count(calls, Allow)
  {
    FewFailuresStayClosed(c, INITIAL, calls);
    ClosedAdmitsAll(c, INITIAL, calls);
  }

  // ---- the breaker protects the backend -----------------------------------------

  /** Whole cooldown periods that fit in a span. */
  function Periods(c: Settings, span: real): int
    requires c.openSeconds > 0.0
  {
    (span / c.openSeconds).Floor
  }

  lemma PeriodsGrow(c: Settings, shorter: real, longer: real)
    requires c.openSeconds > 0.0 && shorter <= longer
    ensures Periods(c, shorter) <= Periods(c, longer)
  {
    DivideMonotone(shorter, longer, c.openSeconds);
  }

  lemma DivideMonotone(x: real, y: real, d: real)
    requires d > 0.0 && x <= y
    ensures x / d <= y / d
  {
    assert (y - x) / d >= 0.0;
    assert y / d == x / d + (y - x) / d;
  }

  lemma DivideExact(x: real, d: real, q: real)
    requires d > 0.0 && q * d == x
    ensures x / d == q
  {}

  lemma PeriodsAddOne(c: Settings, span: real)
    requires c.openSeconds > 0.0
    ensures Periods(c, span + c.openSeconds) == Periods(c, span) + 1
  {
    var q := span / c.openSeconds;
    assert (q + 1.0) * c.openSeconds == span + c.openSeconds;
    DivideExact(span + c.openSeconds, c.openSeconds, q + 1.0);
  }

  function TrialLimit(c: Settings): nat {
    if c.halfOpenMaxCalls < 0 then 0 else c.halfOpenMaxCalls
  }

  /** What every reachable breaker satisfies at time `now`. */
  predicate Sane(c: Settings, b: Breaker, now: real) {
    && (b.state == Open ==> b.openedAt <= now)
    && 0 <= b.halfOpenCalls <= TrialLimit(c)
  }

  lemma StepKeepsSane(c: Settings, b: Breaker, call: Call, now: real)
    requires Sane(c, b, now) && now <= call.now
    ensures Sane(c, Step(c, b, call), call.now)
  {}

  lemma {:induction false} RunKeepsSane(c: Settings, b: Breaker, calls: seq<Call>, first: real, last: real)
    requires Sane(c, b, first) && Within(calls, first, last)
    ensures Sane(c, Run(c, b, calls), last)
    decreases |calls|
  {
    if calls != [] {
      StepKeepsSane(c, b, calls[0], first);
      RunKeepsSane(c, Step(c, b, calls[0]), calls[1..], calls[0].now, last);
    }
  }

  /** An upper bound on the trials still to come up to time `last`: the unused part of the current
      half-open episode, plus a full quota for every cooldown that can still elapse. */
  function Quota(c: Settings, b: Breaker, now: real, last: real): int
    requires c.openSeconds > 0.0
  {
    match b.state
    case Closed => 0
    case HalfOpen => TrialLimit(c) - b.halfOpenCalls + TrialLimit(c) * Periods(c, last - now)
    case Open =>
      var reopens := if b.openedAt + c.openSeconds <= now then now else b.openedAt + c.openSeconds;
      TrialLimit(c) * (Periods(c, last - reopens) + 1)
  }

  lemma MulMonotone(k: nat, x: int, y: int)
    requires x <= y
    ensures k * x <= k * y
  {}

  lemma QuotaOpenBound(c: Settings, b: Breaker, now: real, last: real)
    requires c.openSeconds > 0.0 && Sane(c, b, now) && now <= last && b.state == Open
    ensures 0 <= Quota(c, b, now, last) <= TrialLimit(c) * (Periods(c, last - now) + 1)
  {
    var reopens := if b.openedAt + c.openSeconds <= now then now else b.openedAt + c.openSeconds;
    PeriodsGrow(c, last - reopens, last - now);
    PeriodsAddOne(c, last - reopens);
    PeriodsGrow(c, 0.0, last - reopens + c.openSeconds);
    MulMonotone(TrialLimit(c), 0, Periods(c, last - reopens) + 1);
    MulMonotone(TrialLimit(c), Periods(c, last - reopens) + 1, Periods(c, last - now) + 1);
  }

  lemma QuotaBound(c: Settings, b: Breaker, now: real, last: real)
    requires c.openSeconds > 0.0 && Sane(c, b, now) && now <= last && b.state != Closed
    ensures 0 <= Quota(c, b, now, last) <= TrialLimit(c) * (Periods(c, last - now) + 1)
  {
    if b.state == Open {
      QuotaOpenBound(c, b, now, last);
    } else {
      PeriodsGrow(c, 0.0, last - now);
      MulMonotone(TrialLimit(c), 0, Periods(c, last - now));
    }
  }

  /** The quota does not grow with time while nothing happens. */
  lemma QuotaShrinks(c: Settings, b: Breaker, now: real, later: real, last: real)
    requires c.openSeconds > 0.0 && b.state != Closed && now <= later <= last
    ensures Quota(c, b, later, last) <= Quota(c, b, now, last)
  {
    PeriodsGrow(c, last - later, last - now);
    MulMonotone(TrialLimit(c), Periods(c, last - later), Periods(c, last - now));
    if b.state == Open {
      var r := if b.openedAt + c.openSeconds <= now then now else b.openedAt + c.openSeconds;
      var s := if b.openedAt + c.openSeconds <= later then later else b.openedAt + c.openSeconds;
      PeriodsGrow(c, last - s, last - r);
      MulMonotone(TrialLimit(c), Periods(c, last - s) + 1, Periods(c, last - r) + 1);
    }
  }

  /** Each call pays for what it admits out of the quota. */
  lemma StepSpendsQuota(c: Settings, b: Breaker, call: Call, last: real)
    requires c.openSeconds > 0.0 && Sane(c, b, call.now) && call.now <= last
    requires b.state != Closed && Step(c, b, call).state != Closed
    ensures Quota(c, Step(c, b, call), call.now, last)
            + (if call.event == Allow && Admits(c, b, call.now) then 1 else 0)
            <= Quota(c, b, call.now, last)
  {
    var now := call.now;
    if call.event == Failure && Step(c, b, call) == Tripped(b, now) {
      PeriodsAddOne(c, last - (now + c.openSeconds));
      assert Quota(c, Tripped(b, now), now, last) == TrialLimit(c) * Periods(c, last - now);
      if b.state == Open {
        var r := if b.openedAt + c.openSeconds <= now then now else b.openedAt + c.openSeconds;
        PeriodsAddOne(c, last - r);
        PeriodsGrow(c, last - now, last - r + c.openSeconds);
        MulMonotone(TrialLimit(c), Periods(c, last - now), Periods(c, last - r) + 1);
      }
    }
  }

  lemma {:induction false} AdmittedWithinQuota(c: Settings, b: Breaker, calls: seq<Call>, first: real, last: real)
    requires c.openSeconds > 0.0 && Sane(c, b, first)
    requires Within(calls, first, last) && NeverClosed(c, b, calls)
    ensures Admitted(c, b, calls) <= Quota(c, b, first, last)
    decreases |calls|
  {
    WithinOrdered(calls, first, last);
    if calls == [] {
      QuotaBound(c, b, first, last);
    } else {
      var call := calls[0];
      WithinOrdered(calls[1..], call.now, last);
      QuotaShrinks(c, b, first, call.now, last);
      StepSpendsQuota(c, b, call, last);
      StepKeepsSane(c, b, call, first);
      AdmittedWithinQuota(c, Step(c, b, call), calls[1..], call.now, last);
    }
  }

  lemma {:induction false} WithinOrdered(calls: seq<Call>, first: real, last: real)
    requires Within(calls, first, last)
    ensures first <= last
  {
    if calls != [] {
      WithinOrdered(calls[1..], calls[0].now, last);
    }
  }

  /** Main result. However calls interleave, a span of time in which the breaker is never CLOSED
      admits at most one full quota of trials per started cooldown period. */
  lemma BreakerProtectsBackend(c: Settings, before: seq<Call>, span: seq<Call>,
                               start: real, first: real, last: real)
    requires c.openSeconds > 0.0
    requires Within(before, start, first) && Within(span, first, last)
    requires NeverClosed(c, Run(c, INITIAL, before), span)
    ensures Admitted(c, Run(c, INITIAL, before), span)
            <= TrialLimit(c) * (Periods(c, last - first) + 1)
  {
    var b := Run(c, INITIAL, before);
    RunKeepsSane(c, INITIAL, before, start, first);
    WithinOrdered(span, first, last);
    AdmittedWithinQuota(c, b, span, first, last);
    QuotaBound(c, b, first, last);
  }

  // ---- ... and the bound is tight ------------------------------------------------

  function Repeat(call: Call, n: nat): seq<Call> {
    if n == 0 then [] else [call] + Repeat(call, n - 1)
  }

  /** A full quota of trials, a failure, a cooldown; `rounds` times over, then a last quota. */
  function Hammer(c: Settings, now: real, rounds: nat): seq<Call>
    decreases rounds
  {
    Repeat(Call(Allow, now), TrialLimit(c))
    + if rounds == 0 then []
      else [Call(Failure, now), Call(ReadState, now + c.openSeconds)]
           + Hammer(c, now + c.openSeconds, rounds - 1)
  }

  lemma {:induction false} RepeatedTrials(c: Settings, b: Breaker, now: real, n: nat)
    requires b.state == HalfOpen && b.halfOpenCalls + n <= c.halfOpenMaxCalls
    ensures var xs := Repeat(Call(Allow, now), n);
            && Run(c, b, xs) == b.(halfOpenCalls := b.halfOpenCalls + n)
            && Admitted(c, b, xs) == n
            && NeverClosed(c, b, xs)
            && Within(xs, now, now)
    decreases n
  {
    if n > 0 {
      var xs := Repeat(Call(Allow, now), n);
      assert xs[1..] == Repeat(Call(Allow, now), n - 1);
      RepeatedTrials(c, b.(halfOpenCalls := b.halfOpenCalls + 1), now, n - 1);
    }
  }

  /** When the last of `rounds` cooldowns that start at `now` ends. */
  function HammerEnd(c: Settings, now: real, rounds: nat): real
    decreases rounds
  {
    if rounds == 0 then now else HammerEnd(c, now + c.openSeconds, rounds - 1)
  }

  lemma {:induction false} HammerEndIs(c: Settings, now: real, rounds: nat)
    ensures HammerEnd(c, now, rounds) == now + rounds as real * c.openSeconds
    decreases rounds
  {
    if rounds > 0 {
      HammerEndIs(c, now + c.openSeconds, rounds - 1);
      assert rounds as real * c.openSeconds == (rounds - 1) as real * c.openSeconds + c.openSeconds;
    }
  }

  /** Two spans, one after the other. */
  lemma SpansJoin(c: Settings, b: Breaker, xs: seq<Call>, ys: seq<Call>, first: real, mid: real, last: real)
    requires NeverClosed(c, b, xs) && NeverClosed(c, Run(c, b, xs), ys)
    requires Within(xs, first, mid) && Within(ys, mid, last)
    ensures NeverClosed(c, b, xs + ys) && Within(xs + ys, first, last)
    ensures Admitted(c, b, xs + ys) == Admitted(c, b, xs) + Admitted(c, Run(c, b, xs), ys)
  {
    AdmittedSplits(c, b, xs, ys);
    NeverClosedSplits(c, b, xs, ys);
    WithinSplits(xs, ys, first, mid, last);
  }

  /** A half-open breaker that fails re-opens, and is half-open again after one cooldown. */
  lemma Reopens(c: Settings, b: Breaker, now: real)
    requires c.openSeconds >= 0.0 && b.state == HalfOpen
    ensures var pair := [Call(Failure, now), Call(ReadState, now + c.openSeconds)];
            && Run(c, b, pair) == Breaker(HalfOpen, [], now, 0)
            && NeverClosed(c, b, pair) && Within(pair, now, now + c.openSeconds)
            && Admitted(c, b, pair) == 0
  {
    var wake := Call(ReadState, now + c.openSeconds);
    var pair := [Call(Failure, now), wake];
    var open := Tripped(b, now);
    assert pair[1..] == [wake] && [wake][1..] == [];
    assert Step(c, b, pair[0]) == open && Step(c, open, wake) == Breaker(HalfOpen, [], now, 0);
    assert Run(c, open, [wake]) == Breaker(HalfOpen, [], now, 0);
    assert Admitted(c, open, [wake]) == 0 && NeverClosed(c, open, [wake]);
  }

  lemma {:induction false} Hammered(c: Settings, now: real, openedAt: real, rounds: nat)
    requires c.openSeconds >= 0.0 && c.halfOpenMaxCalls >= 0
    ensures var b := Breaker(HalfOpen, [], openedAt, 0);
            var span := Hammer(c, now, rounds);
            && NeverClosed(c, b, span)
            && Within(span, now, HammerEnd(c, now, rounds))
            && Admitted(c, b, span) == TrialLimit(c) * (rounds + 1)
    decreases rounds
  {
    var b, n := Breaker(HalfOpen, [], openedAt, 0), TrialLimit(c);
    var trials := Repeat(Call(Allow, now), n);
    RepeatedTrials(c, b, now, n);
    if rounds == 0 {
      assert Hammer(c, now, rounds) == trials;
    } else {
      var later, last := now + c.openSeconds, HammerEnd(c, now, rounds);
      var pair, rest := [Call(Failure, now), Call(ReadState, later)], Hammer(c, later, rounds - 1);
      var spent := b.(halfOpenCalls := n);
      Reopens(c, spent, now);
      Hammered(c, later, now, rounds - 1);
      SpansJoin(c, spent, pair, rest, now, later, last);
      SpansJoin(c, b, trials, pair + rest, now, now, last);
      assert n + n * rounds == n * (rounds + 1);
    }
  }

  /** The bound of BreakerProtectsBackend is reached for every number of cooldown periods. */
  lemma BoundIsAttained(c: Settings, now: real, openedAt: real, rounds: nat)
    requires c.openSeconds > 0.0 && c.halfOpenMaxCalls >= 0
    ensures var b := Breaker(HalfOpen, [], openedAt, 0);
            var span := Hammer(c, now, rounds);
            var last := now + rounds as real * c.openSeconds;
            && NeverClosed(c, b, span) && Within(span, now, last)
            && Admitted(c, b, span) == TrialLimit(c) * (Periods(c, last - now) + 1)
  {
    Hammered(c, now, openedAt, rounds);
    HammerEndIs(c, now, rounds);
    DivideExact(rounds as real * c.openSeconds, c.openSeconds, rounds as real);
    assert Periods(c, rounds as real * c.openSeconds) == rounds;
  }

  // ---- ... and needs a cooldown ---------------------------------------------------

  /** A trial and its failure, `n` times, all at one instant. */
  function Pulses(now: real, n: nat): seq<Call> {
    if n == 0 then [] else [Call(Allow, now), Call(Failure, now)] + Pulses(now, n - 1)
  }

  /** Without a positive cooldown there is no bound at all: any number of trials at one instant. */
  lemma {:induction false} NoCooldownAdmitsAnything(c: Settings, b: Breaker, now: real, n: nat)
    requires c.openSeconds <= 0.0 && c.halfOpenMaxCalls >= 1
    requires (b.state == HalfOpen && b.halfOpenCalls == 0) || (b.state == Open && b.openedAt == now)
    ensures NeverClosed(c, b, Pulses(now, n)) && Within(Pulses(now, n), now, now)
    ensures Admitted(c, b, Pulses(now, n)) == n
    decreases n
  {
    if n > 0 {
      var xs := Pulses(now, n);
      var tried := Step(c, b, xs[0]);
      var tripped := Step(c, tried, xs[1]);
      assert xs[1..][0] == xs[1] && xs[1..][1..] == Pulses(now, n - 1);
      assert Admits(c, b, now) && tried.state == HalfOpen && tripped.state == Open && tripped.openedAt == now;
      NoCooldownAdmitsAnything(c, tripped, now, n - 1);
    }
  }

  /** The starting point of Hammer is reachable: enough failures at one instant, then a cooldown. */
  lemma {:induction false} FailuresTrip(c: Settings, failures: seq<real>, at: real, n: nat)
    requires c.windowSeconds >= 0.0 && n > 0 && |failures| + n == c.failureThreshold
    requires forall i :: 0 <= i < |failures| ==> failures[i] == at
    ensures Run(c, Breaker(Closed, failures, 0.0, 0), Repeat(Call(Failure, at), n))
            == Breaker(Open, [], at, 0)
    decreases n
  {
    var b, xs := Breaker(Closed, failures, 0.0, 0), Repeat(Call(Failure, at), n);
    assert xs[1..] == Repeat(Call(Failure, at), n - 1);
    var grown := failures + [at];
    assert grown[0] == at && PruneFront(grown, at - c.windowSeconds) == grown;
    if n > 1 {
      assert Step(c, b, xs[0]) == Breaker(Closed, grown, 0.0, 0);
      FailuresTrip(c, grown, at, n - 1);
    } else {
      assert Step(c, b, xs[0]) == Breaker(Open, [], at, 0);
    }
  }

  /** When a breaker that opened at `at` may be tried again. */
  function Awake(c: Settings, at: real): real {
    if c.openSeconds > 0.0 then at + c.openSeconds else at
  }

  lemma HalfOpenIsReachable(c: Settings, at: real)
    requires c.windowSeconds >= 0.0 && c.failureThreshold >= 1
    ensures Run(c, INITIAL, Repeat(Call(Failure, at), c.failureThreshold) + [Call(ReadState, Awake(c, at))])
            == Breaker(HalfOpen, [], at, 0)
  {
    var xs, wake := Repeat(Call(Failure, at), c.failureThreshold), [Call(ReadState, Awake(c, at))];
    FailuresTrip(c, [], at, c.failureThreshold);
    RunSplits(c, INITIAL, xs, wake);
    assert wake[1..] == [];
  }

  lemma {:induction false} RepeatWithin(call: Call, n: nat)
    ensures Within(Repeat(call, n), call.now, call.now)
    decreases n
  {
    if n > 0 {
      RepeatWithin(call, n - 1);
      assert Repeat(call, n)[1..] == Repeat(call, n - 1);
    }
  }

  /** A window that ends in the future forgets every failure at once, and the breaker never opens. */
  lemma {:induction false} NegativeWindowStaysClosed(c: Settings, b: Breaker, calls: seq<Call>)
    requires c.windowSeconds < 0.0 && c.failureThreshold >= 1 && b.state == Closed && b.failures == []
    ensures Run(c, b, calls).state == Closed
    decreases |calls|
  {
    if calls != [] {
      assert PruneFront([calls[0].now], calls[0].now - c.windowSeconds) == [];
      assert [] + [calls[0].now] == [calls[0].now];
      NegativeWindowStaysClosed(c, Step(c, b, calls[0]), calls[1..]);
    }
  }

  lemma {:induction false} NoTrialsNoAdmissions(c: Settings, b: Breaker, calls: seq<Call>, first: real, last: real)
    requires c.halfOpenMaxCalls <= 0 && Sane(c, b, first) && Within(calls, first, last) && NeverClosed(c, b, calls)
    ensures Admitted(c, b, calls) == 0
    decreases |calls|
  {
    if calls != [] {
      StepKeepsSane(c, b, calls[0], first);
      NoTrialsNoAdmissions(c, Step(c, b, calls[0]), calls[1..], calls[0].now, last);
    }
  }

  /** At any one instant, a breaker that is never CLOSED admits at most `k` calls. */
  ghost predicate CapsInstant(c: Settings, k: nat) {
    forall before, span, start, now ::
      SpanAt(c, before, span, start, now) ==> Admitted(c, Run(c, INITIAL, before), span) <= k
  }

  predicate SpanAt(c: Settings, before: seq<Call>, span: seq<Call>, start: real, now: real) {
    Within(before, start, now) && Within(span, now, now) && NeverClosed(c, Run(c, INITIAL, before), span)
  }

  /** Main result, the other half: there is a bound exactly when the cooldown is positive, no trials are
      allowed at all, or the breaker cannot open. */
  lemma CappedExactlyWhen(c: Settings)
    requires c.failureThreshold >= 1
    ensures (exists k :: CapsInstant(c, k))
            <==> c.openSeconds > 0.0 || c.halfOpenMaxCalls <= 0 || c.windowSeconds < 0.0
  {
    if c.openSeconds > 0.0 || c.halfOpenMaxCalls <= 0 || c.windowSeconds < 0.0 {
      forall before, span, start, now | SpanAt(c, before, span, start, now)
        ensures Admitted(c, Run(c, INITIAL, before), span) <= TrialLimit(c)
      {
        CapHolds(c, before, span, start, now);
      }
      assert CapsInstant(c, TrialLimit(c));
    } else {
      forall k: nat ensures !CapsInstant(c, k) {
        var before := Repeat(Call(Failure, 0.0), c.failureThreshold) + [Call(ReadState, 0.0)];
        HalfOpenIsReachable(c, 0.0);
        RepeatWithin(Call(Failure, 0.0), c.failureThreshold);
        WithinSplits(Repeat(Call(Failure, 0.0), c.failureThreshold), [Call(ReadState, 0.0)], 0.0, 0.0, 0.0);
        NoCooldownAdmitsAnything(c, Run(c, INITIAL, before), 0.0, k + 1);
        assert SpanAt(c, before, Pulses(0.0, k + 1), 0.0, 0.0);
      }
    }
  }

  lemma CapHolds(c: Settings, before: seq<Call>, span: seq<Call>, start: real, now: real)
    requires c.failureThreshold >= 1 && SpanAt(c, before, span, start, now)
    requires c.openSeconds > 0.0 || c.halfOpenMaxCalls <= 0 || c.windowSeconds < 0.0
    ensures Admitted(c, Run(c, INITIAL, before), span) <= TrialLimit(c)
  {
    if c.openSeconds > 0.0 {
      BreakerProtectsBackend(c, before, span, start, now, now);
      assert Periods(c, 0.0) == 0;
    } else if c.windowSeconds < 0.0 {
      NegativeWindowStaysClosed(c, INITIAL, before);
    } else {
      RunKeepsSane(c, INITIAL, before, start, now);
      NoTrialsNoAdmissions(c, Run(c, INITIAL, before), span, now, now);
    }
  }

  predicate StaysHalfOpen(c: Settings, b: Breaker, calls: seq<Call>)
    decreases |calls|
  {
    b.state == HalfOpen && (calls != [] ==> StaysHalfOpen(c, Step(c, b, calls[0]), calls[1..]))
  }

  /** Only feedback moves a half-open breaker, and the first success or failure always does. */
  lemma {:induction false} OnlyFeedbackMoves(c: Settings, b: Breaker, calls: seq<Call>)
    requires b.state == HalfOpen
    ensures StaysHalfOpen(c, b, calls) <==> forall i :: 0 <= i < |calls| ==> calls[i].event in {ReadState, Allow}
    decreases |calls|
  {
    if calls != [] {
      var next := Step(c, b, calls[0]);
      assert next.state == HalfOpen <==> calls[0].event in {ReadState, Allow};
      if next.state == HalfOpen {
        OnlyFeedbackMoves(c, next, calls[1..]);
        assert forall i :: 0 < i < |calls| ==> calls[i] == calls[1..][i - 1];
      }
    }
  }

  /** A half-open breaker whose trials are used up waits for feedback: trials that end in an error
      that counts neither as success nor as failure leave it rejecting every call for good. */
  lemma {:induction false} SpentTrialsRejectForever(c: Settings, b: Breaker, calls: seq<Call>)
    requires b.state == HalfOpen && b.halfOpenCalls >= c.halfOpenMaxCalls
    requires forall i :: 0 <= i < |calls| ==> calls[i].event in {ReadState, Allow}
    ensures Run(c, b, calls) == b && Admitted(c, b, calls) == 0
    decreases |calls|
  {
    if calls != [] {
      assert Step(c, b, calls[0]) == b;
      SpentTrialsRejectForever(c, b, calls[1..]);
    }
  }

  // ---- the pruned window refines the full history -----------------------------------

  /** The reference breaker never forgets: it keeps every failure since the last clear and
      filters when it must decide. */
  datatype Reference = Reference(state: CircuitState, history: seq<real>, openedAt: real, halfOpenCalls: int)

  function InWindow(history: seq<real>, cutoff: real): seq<real> {
    if history == [] then []
    else if history[0] >= cutoff then [history[0]] + InWindow(history[1..], cutoff)
    else InWindow(history[1..], cutoff)
  }

  function RefStep(c: Settings, r: Reference, call: Call): Reference {
    var woken := if r.state == Open && call.now - r.openedAt >= c.openSeconds
                 then r.(state := HalfOpen, halfOpenCalls := 0) else r;
    match call.event
    case ReadState => woken
    case Allow =>
      if woken.state == HalfOpen && woken.halfOpenCalls < c.halfOpenMaxCalls
      then woken.(halfOpenCalls := woken.halfOpenCalls + 1) else woken
    case Success =>
      if r.state == HalfOpen then Reference(Closed, [], r.openedAt, 0) else r
    case Failure =>
      var all := r.history + [call.now];
      if r.state == HalfOpen || |InWindow(all, call.now - c.windowSeconds)| >= c.failureThreshold
      then Reference(Open, [], call.now, 0) else r.(history := all)
  }

  function RefRun(c: Settings, r: Reference, calls: seq<Call>): Reference
    decreases |calls|
  {
    if calls == [] then r else RefRun(c, RefStep(c, r, calls[0]), calls[1..])
  }

  predicate Sorted(ts: seq<real>) {
    forall i, j :: 0 <= i < j < |ts| ==> ts[i] <= ts[j]
  }

  /** `kept` is what is left of `history` after dropping a front older than the cutoff. */
  predicate StaleFrontDropped(history: seq<real>, kept: seq<real>, cutoff: real) {
    && |kept| <= |history| && kept == history[|history| - |kept|..]
    && forall i :: 0 <= i < |history| - |kept| ==> history[i] < cutoff
  }

  /** Ascending, and nothing is recorded in the future. */
  predicate RecordedBy(history: seq<real>, now: real) {
    Sorted(history) && forall i :: 0 <= i < |history| ==> history[i] <= now
  }

  predicate Refines(c: Settings, b: Breaker, r: Reference, now: real) {
    && b.state == r.state && b.openedAt == r.openedAt && b.halfOpenCalls == r.halfOpenCalls
    && RecordedBy(r.history, now)
    && StaleFrontDropped(r.history, b.failures, now - c.windowSeconds)
  }

  lemma {:induction false} InWindowKeepsAll(history: seq<real>, cutoff: real)
    requires forall i :: 0 <= i < |history| ==> history[i] >= cutoff
    ensures InWindow(history, cutoff) == history
  {
    if history != [] {
      InWindowKeepsAll(history[1..], cutoff);
    }
  }

  /** On a sorted history, filtering is the same as skipping a stale front and popping the rest. */
  lemma {:induction false} PruneIsFilter(history: seq<real>, dropped: nat, cutoff: real)
    requires Sorted(history) && dropped <= |history|
    requires forall i :: 0 <= i < dropped ==> history[i] < cutoff
    ensures PruneFront(history[dropped..], cutoff) == InWindow(history, cutoff)
    decreases |history|
  {
    if history != [] {
      if history[0] < cutoff {
        var d := if dropped == 0 then 0 else dropped - 1;
        assert history[1..][d..] == if dropped == 0 then history[1..] else history[dropped..];
        PruneIsFilter(history[1..], d, cutoff);
      } else {
        assert history[dropped..] == history;
        InWindowKeepsAll(history, cutoff);
      }
    }
  }

  /** Popping removes a stale front and leaves the rest in place. */
  lemma {:induction false} PruneDropsStaleFront(failures: seq<real>, cutoff: real)
    ensures var kept := PruneFront(failures, cutoff);
            && |kept| <= |failures| && kept == failures[|failures| - |kept|..]
            && forall i :: 0 <= i < |failures| - |kept| ==> failures[i] < cutoff
    decreases |failures|
  {
    if failures != [] && failures[0] < cutoff {
      PruneDropsStaleFront(failures[1..], cutoff);
    }
  }

  lemma PruneKeepsFront(history: seq<real>, kept: seq<real>, cutoff: real)
    requires StaleFrontDropped(history, kept, cutoff)
    ensures StaleFrontDropped(history, PruneFront(kept, cutoff), cutoff)
  {
    var recent, dropped := PruneFront(kept, cutoff), |history| - |kept|;
    PruneDropsStaleFront(kept, cutoff);
    forall i | 0 <= i < |history| - |recent| ensures history[i] < cutoff {
      if i >= dropped {
        assert history[i] == kept[i - dropped];
      }
    }
    assert recent == history[|history| - |recent|..];
  }

  lemma PruneIsWindow(history: seq<real>, kept: seq<real>, cutoff: real)
    requires Sorted(history) && StaleFrontDropped(history, kept, cutoff)
    ensures PruneFront(kept, cutoff) == InWindow(history, cutoff)
    ensures StaleFrontDropped(history, InWindow(history, cutoff), cutoff)
  {
    PruneIsFilter(history, |history| - |kept|, cutoff);
    PruneKeepsFront(history, kept, cutoff);
  }

  /** Pruning at `now` leaves exactly the failures of the history that are still in the window,
      and the result still refines the history from then on. */
  lemma PruneRefines(c: Settings, b: Breaker, r: Reference, now: real)
    requires Refines(c, b, r, now)
    ensures var recent := PruneFront(b.failures, now - c.windowSeconds);
            && recent == InWindow(r.history, now - c.windowSeconds)
            && Refines(c, b.(failures := recent), r, now)
  {
    PruneIsWindow(r.history, b.failures, now - c.windowSeconds);
  }

  lemma TimePassesRefines(c: Settings, b: Breaker, r: Reference, before: real, now: real)
    requires Refines(c, b, r, before) && before <= now
    ensures Refines(c, b, r, now)
  {}

  /** Recording a failure at the current time. */
  lemma AppendRefines(c: Settings, b: Breaker, r: Reference, now: real)
    requires Refines(c, b, r, now)
    ensures Refines(c, b.(failures := b.failures + [now]), r.(history := r.history + [now]), now)
  {
    var dropped := |r.history| - |b.failures|;
    assert (r.history + [now])[dropped..] == b.failures + [now];
  }

  lemma FailureRefines(c: Settings, b: Breaker, r: Reference, now: real)
    requires Refines(c, b, r, now) && b.state != HalfOpen
    ensures var all := r.history + [now];
            var recent := InWindow(all, now - c.windowSeconds);
            && PruneFront(b.failures + [now], now - c.windowSeconds) == recent
            && Refines(c, b.(failures := recent), r.(history := all), now)
  {
    AppendRefines(c, b, r, now);
    PruneRefines(c, b.(failures := b.failures + [now]), r.(history := r.history + [now]), now);
  }

  /** A step that leaves what was recorded alone. */
  lemma UntouchedRefines(c: Settings, b: Breaker, r: Reference, before: real, call: Call)
    requires Refines(c, b, r, before) && before <= call.now && call.event in {ReadState, Allow}
    ensures var next, ref := Step(c, b, call), RefStep(c, r, call);
            && next.failures == b.failures && ref.history == r.history
            && next.state == ref.state && next.openedAt == ref.openedAt && next.halfOpenCalls == ref.halfOpenCalls
  {}

  lemma SuccessRefines(c: Settings, b: Breaker, r: Reference, now: real)
    requires Refines(c, b, r, now)
    ensures Refines(c, Step(c, b, Call(Success, now)), RefStep(c, r, Call(Success, now)), now)
  {
    if b.state == Closed {
      PruneRefines(c, b, r, now);
    }
  }

  lemma FailureStepRefines(c: Settings, b: Breaker, r: Reference, now: real)
    requires Refines(c, b, r, now)
    ensures Refines(c, Step(c, b, Call(Failure, now)), RefStep(c, r, Call(Failure, now)), now)
  {
    if b.state != HalfOpen {
      FailureRefines(c, b, r, now);
    }
  }

  lemma StepRefines(c: Settings, b: Breaker, r: Reference, before: real, call: Call)
    requires Refines(c, b, r, before) && before <= call.now
    ensures Refines(c, Step(c, b, call), RefStep(c, r, call), call.now)
  {
    TimePassesRefines(c, b, r, before, call.now);
    match call.event
    case ReadState => UntouchedRefines(c, b, r, before, call);
    case Allow => UntouchedRefines(c, b, r, before, call);
    case Success => SuccessRefines(c, b, r, call.now);
    case Failure => FailureStepRefines(c, b, r, call.now);
  }

  /** Main result. With a clock that does not go back, the breaker that prunes its deque is in
      the same state, at every point of every run, as one that remembers every failure. */
  lemma {:induction false} WindowRefinesHistory(c: Settings, b: Breaker, r: Reference, calls: seq<Call>,
                                                first: real, last: real)
    requires Refines(c, b, r, first) && Within(calls, first, last)
    ensures Refines(c, Run(c, b, calls), RefRun(c, r, calls), last)
    decreases |calls|
  {
    if calls != [] {
      StepRefines(c, b, r, first, calls[0]);
      WindowRefinesHistory(c, Step(c, b, calls[0]), RefStep(c, r, calls[0]), calls[1..], calls[0].now, last);
    }
  }

  const INITIAL_REFERENCE := Reference(Closed, [], 0.0, 0)

  /** A failure reported outside HALF_OPEN opens the breaker exactly when the failures since the
      last clear that lie in the window number at least the threshold; otherwise the deque holds
      exactly those failures. */
  lemma FailureOpensExactlyAtThreshold(c: Settings, calls: seq<Call>, first: real, now: real)
    requires Within(calls, first, now)
    requires Run(c, INITIAL, calls).state != HalfOpen
    ensures var b := Run(c, INITIAL, calls);
            var history := RefRun(c, INITIAL_REFERENCE, calls).history + [now];
            var recent := InWindow(history, now - c.windowSeconds);
            Step(c, b, Call(Failure, now))
            == if |recent| >= c.failureThreshold then Tripped(b, now) else b.(failures := recent)
  {
    var b, r := Run(c, INITIAL, calls), RefRun(c, INITIAL_REFERENCE, calls);
    WindowRefinesHistory(c, INITIAL, INITIAL_REFERENCE, calls, first, now);
    FailureRefines(c, b, r, now);
  }

  /** Between calls the deque is sorted and shorter than the threshold. */
  lemma {:induction false} DequeStaysShort(c: Settings, calls: seq<Call>, first: real, last: real)
    requires c.failureThreshold >= 1 && Within(calls, first, last)
    ensures var failures := Run(c, INITIAL, calls).failures;
            Sorted(failures) && |failures| < c.failureThreshold
  {
    WindowRefinesHistory(c, INITIAL, INITIAL_REFERENCE, calls, first, last);
    RunStaysShort(c, INITIAL, calls);
  }

  lemma {:induction false} RunStaysShort(c: Settings, b: Breaker, calls: seq<Call>)
    requires c.failureThreshold >= 1 && |b.failures| < c.failureThreshold
    ensures |Run(c, b, calls).failures| < c.failureThreshold
    decreases |calls|
  {
    if calls != [] {
      PruneDropsStaleFront(b.failures, calls[0].now - c.windowSeconds);
      RunStaysShort(c, Step(c, b, calls[0]), calls[1..]);
    }
  }

  /** The refinement needs the clock: with one reading that goes back, pruning loses a failure
      that the full history still counts, and the breaker stays closed. */
  lemma ClockMustNotGoBack()
    ensures var c := Settings(3, 5.0, 1.0, 1);
            var calls := [Call(Failure, 100.0), Call(Failure, 200.0), Call(Failure, 102.0)];
            Run(c, INITIAL, calls).state == Closed && RefRun(c, INITIAL_REFERENCE, calls).state == Open
  {
    PrunedForgets();
    HistoryRemembers();
  }

  lemma PrunedForgets()
    ensures Run(Settings(3, 5.0, 1.0, 1), INITIAL,
                [Call(Failure, 100.0), Call(Failure, 200.0), Call(Failure, 102.0)]).state == Closed
  {
    var c := Settings(3, 5.0, 1.0, 1);
    var calls := [Call(Failure, 100.0), Call(Failure, 200.0), Call(Failure, 102.0)];
    var b1 := Step(c, INITIAL, calls[0]);
    assert PruneFront([100.0], 95.0) == [100.0] && b1 == Breaker(Closed, [100.0], 0.0, 0);
    var b2 := Step(c, b1, calls[1]);
    assert [100.0, 200.0][1..] == [200.0];
    assert PruneFront([100.0, 200.0], 195.0) == PruneFront([200.0], 195.0) == [200.0];
    assert b2 == Breaker(Closed, [200.0], 0.0, 0);
    assert Step(c, b2, calls[2]).state == Closed;
    assert calls[1..] == [calls[1], calls[2]] && calls[1..][1..] == [calls[2]] && calls[1..][1..][1..] == [];
  }

  lemma HistoryRemembers()
    ensures RefRun(Settings(3, 5.0, 1.0, 1), INITIAL_REFERENCE,
                   [Call(Failure, 100.0), Call(Failure, 200.0), Call(Failure, 102.0)]).state == Open
  {
    var c := Settings(3, 5.0, 1.0, 1);
    var calls := [Call(Failure, 100.0), Call(Failure, 200.0), Call(Failure, 102.0)];
    var r1 := RefStep(c, INITIAL_REFERENCE, calls[0]);
    InWindowKeepsAll([100.0], 95.0);
    assert INITIAL_REFERENCE.history + [100.0] == [100.0];
    assert r1.history == [100.0] && r1.history + [200.0] == [100.0, 200.0];
    var r2 := RefStep(c, r1, calls[1]);
    assert [100.0, 200.0][1..] == [200.0];
    InWindowKeepsAll([200.0], 195.0);
    assert InWindow([100.0, 200.0], 195.0) == InWindow([200.0], 195.0) == [200.0];
    assert r2 == Reference(Closed, [100.0, 200.0], 0.0, 0);
    InWindowKeepsAll([100.0, 200.0, 102.0], 97.0);
    assert r2.history + [102.0] == [100.0, 200.0, 102.0];
    assert calls[1..] == [calls[1], calls[2]] && calls[1..][1..] == [calls[2]] && calls[1..][1..][1..] == [];
  }

  // ---- the object --------------------------------------------------------------

  lemma OneMoreCall(c: Settings, calls: seq<Call>, call: Call, first: real, last: real)
    requires Within(calls, first, last) && last <= call.now
    ensures Run(c, INITIAL, calls + [call]) == Step(c, Run(c, INITIAL, calls), call)
    ensures Within(calls + [call], first, call.now)
  {
    RunSplits(c, INITIAL, calls, [call]);
    assert [call][1..] == [];
    WithinSplits(calls, [call], first, last, call.now);
  }

  /** The breaker as the program holds it. `calls` is every call made on it so far, so the results
      about runs above hold of the object at any moment of its life. */
  class CircuitBreaker {
    const settings: Settings
    var state: CircuitState
    var failures: seq<real>
    var openedAt: real
    var halfOpenCalls: int
    ghost var calls: seq<Call>
    ghost var clock: real
    ghost const born: real

    ghost function Model(): Breaker
      reads this
    {
      Breaker(state, failures, openedAt, halfOpenCalls)
    }

    ghost predicate Valid()
      reads this
    {
      Model() == Run(settings, INITIAL, calls) && Within(calls, born, clock)
    }

    constructor (c: Settings, ghost now: real)
      ensures Valid() && settings == c && calls == [] && clock == now && Model() == INITIAL
    {
      settings := c;
      state, failures, openedAt, halfOpenCalls := Closed, [], 0.0, 0;
      calls, clock, born := [], now, now;
    }

    method State(now: real) returns (s: CircuitState)
      requires Valid() && clock <= now
      modifies this
      ensures Valid() && calls == old(calls) + [Call(ReadState, now)] && clock == now
      ensures Model() == AfterState(settings, old(Model()), now) && s == state
      ensures s == if old(state) == Open && now - old(openedAt) >= settings.openSeconds then HalfOpen else old(state)
      ensures failures == old(failures) && openedAt == old(openedAt)
    {
      OneMoreCall(settings, calls, Call(ReadState, now), born, clock);
      s := Wake(now);
      calls, clock := calls + [Call(ReadState, now)], now;
    }

    method Allow(now: real) returns (allowed: bool)
      requires Valid() && clock <= now
      modifies this
      ensures Valid() && calls == old(calls) + [Call(Event.Allow, now)] && clock == now
      ensures Model() == AfterAllow(settings, old(Model()), now)
      ensures allowed == Admits(settings, old(Model()), now)
      ensures old(state) == Closed ==> allowed && Model() == old(Model())
      ensures old(state) == Open && now - old(openedAt) < settings.openSeconds ==> !allowed && Model() == old(Model())
      ensures old(state) == Open && now - old(openedAt) >= settings.openSeconds ==>
                && state == HalfOpen && allowed == (settings.halfOpenMaxCalls > 0)
                && halfOpenCalls == if allowed then 1 else 0
      ensures old(state) == HalfOpen ==>
                && state == HalfOpen && allowed == (old(halfOpenCalls) < settings.halfOpenMaxCalls)
                && halfOpenCalls == old(halfOpenCalls) + if allowed then 1 else 0
    {
      OneMoreCall(settings, calls, Call(Event.Allow, now), born, clock);
      var s := Wake(now);
      calls, clock := calls + [Call(Event.Allow, now)], now;
      if s == Closed {
        return true;
      }
      if s == Open {
        return false;
      }
      if halfOpenCalls < settings.halfOpenMaxCalls {
        halfOpenCalls := halfOpenCalls + 1;
        return true;
      }
      return false;
    }

    method OnSuccess(now: real)
      requires Valid() && clock <= now
      modifies this
      ensures Valid() && calls == old(calls) + [Call(Success, now)] && clock == now
      ensures Model() == AfterSuccess(settings, old(Model()), now)
      ensures old(state) == HalfOpen ==> state == Closed && failures == [] && halfOpenCalls == 0
      ensures old(state) != HalfOpen ==> state == old(state) && halfOpenCalls == old(halfOpenCalls)
      ensures old(state) == Open ==> failures == old(failures)
    {
      OneMoreCall(settings, calls, Call(Success, now), born, clock);
      if state == HalfOpen {
        Reset();
      } else if state == Closed {
        Prune(now);
      }
      calls, clock := calls + [Call(Success, now)], now;
    }

    method OnFailure(now: real)
      requires Valid() && clock <= now
      modifies this
      ensures Valid() && calls == old(calls) + [Call(Failure, now)] && clock == now
      ensures Model() == AfterFailure(settings, old(Model()), now)
      ensures old(state) == HalfOpen ==> state == Open
      ensures state != old(state) || openedAt != old(openedAt) ==>
                state == Open && openedAt == now && failures == [] && halfOpenCalls == 0
    {
      OneMoreCall(settings, calls, Call(Failure, now), born, clock);
      calls, clock := calls + [Call(Failure, now)], now;
      if state == HalfOpen {
        Trip(now);
        return;
      }
      failures := failures + [now];
      Prune(now);
      if |failures| >= settings.failureThreshold {
        Trip(now);
      }
    }

    method Wake(now: real) returns (s: CircuitState)
      modifies this`state, this`halfOpenCalls
      ensures Model() == AfterState(settings, old(Model()), now) && s == state
    {
      if state == Open && now - openedAt >= settings.openSeconds {
        state, halfOpenCalls := HalfOpen, 0;
      }
      s := state;
    }

    method Prune(now: real)
      modifies this`failures
      ensures failures == PruneFront(old(failures), now - settings.windowSeconds)
    {
      var cutoff := now - settings.windowSeconds;
      while failures != [] && failures[0] < cutoff
        invariant PruneFront(failures, cutoff) == PruneFront(old(failures), cutoff)
        decreases |failures|
      {
        failures := failures[1..];
      }
    }

    method Trip(now: real)
      modifies this`state, this`openedAt, this`failures, this`halfOpenCalls
      ensures Model() == Tripped(old(Model()), now)
    {
      state, openedAt, failures, halfOpenCalls := Open, now, [], 0;
    }

    method Reset()
      modifies this`state, this`failures, this`halfOpenCalls
      ensures Model() == old(Model()).(state := Closed, failures := [], halfOpenCalls := 0)
    {
      state, failures, halfOpenCalls := Closed, [], 0;
    }
  }
}
