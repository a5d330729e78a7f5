/** The retry loop of `_async/resilience.py` around the auto-commit scope of `_async/executor.py`:
    what one logical call may do to the database, to the clock and to the breaker. */
module Retry {
  import opened Wrappers
  import opened Policies
  import opened Circuit

  // ---- the environment -----------------------------------------------------------

  datatype BodyResult = BodyDone | BodyError(error: DbError) | BodyEscaped
  datatype CommitResult = CommitDone | CommitRefused(error: DbError) | CommitLost

  /** How one attempt ends for the loop: a value, a DatabaseError, or any other exception. */
  datatype Attempt = Returned | Failed(error: DbError) | Escaped

  /** What the surroundings have in store for one run of the operation: how its work ends, how its COMMIT
      would end, and whether a COMMIT that is not confirmed takes effect all the same. */
  datatype Fate = Fate(body: BodyResult, commit: CommitResult, applied: bool)

  /** A server that refuses a COMMIT says so: only a lost connection leaves the outcome open. */
  function Reported(c: CommitResult): CommitResult {
    match c
    case CommitRefused(e) => CommitRefused(e.(stateUnknown := false))
    case _ => c
  }

  /** The process clock, the random source, the server, and everybody else who uses the breaker. */
  class World {
    const fates: nat -> Fate
    var clock: real
    var runs: nat      // how many runs there were
    var effects: nat   // server state: how many times the effect of this call is committed

    constructor (fates: nat -> Fate)
      ensures effects == 0 && runs == 0 && this.fates == fates
    {
      this.fates := fates;
      clock, runs, effects := 0.0, 0, 0;
    }

    method Monotonic() returns (now: real)
      modifies this`clock
      ensures now == clock >= old(clock)
    {
      var dt: real := *;
      if dt > 0.0 {
        clock := clock + dt;
      }
      now := clock;
    }

    method Sleep(delay: real)
      modifies this`clock
      ensures clock >= old(clock) && clock >= old(clock) + delay
    {
      if delay > 0.0 {
        clock := clock + delay;
      }
      var late := Monotonic();
    }

    method Random() returns (rand: real)
      ensures 0.0 <= rand < 1.0
    {
      rand := *;
      if !(0.0 <= rand < 1.0) {
        rand := 0.0;
      }
    }

    /** Waiting for a slot and a connection, then running the statement. Nothing is committed. */
    method RunBody() returns (r: BodyResult)
      modifies this`clock, this`runs
      ensures clock >= old(clock) && runs == old(runs) + 1 && r == fates(old(runs)).body
    {
      var late := Monotonic();
      r := fates(runs).body;
      runs := runs + 1;
    }

    /** COMMIT. A lost connection leaves the outcome open, and so may an error the server raises. */
    method Commit() returns (r: CommitResult)
      requires runs > 0
      modifies this`clock, this`effects
      ensures clock >= old(clock) && r == Reported(fates(runs - 1).commit)
      ensures effects == old(effects) + if r == CommitDone || fates(runs - 1).applied then 1 else 0
    {
      var late := Monotonic();
      var fate := fates(runs - 1);
      r := Reported(fate.commit);
      effects := effects + if r == CommitDone || fate.applied then 1 else 0;
    }

    /** Any number of calls on the breaker by other tasks, at an await point. */
    method OtherTasks(breaker: CircuitBreaker?) returns (others: seq<Call>)
      requires breaker != null ==> breaker.Valid() && breaker.clock <= clock
      modifies this`clock, breaker
      ensures clock >= old(clock)
      ensures breaker == null ==> others == []
      ensures breaker != null ==>
                breaker.Valid() && breaker.clock <= clock && breaker.calls == old(breaker.calls) + others
    {
      others := [];
      if breaker == null {
        return;
      }
      var n: nat := *;
      while n > 0
        invariant breaker.Valid() && breaker.clock <= clock && clock >= old(clock)
        invariant breaker.calls == old(breaker.calls) + others
      {
        var now := Monotonic();
        var event: Event := *;
        match event {
          case ReadState => var s := breaker.State(now);
          case Allow => var ok := breaker.Allow(now);
          case Success => breaker.OnSuccess(now);
          case Failure => breaker.OnFailure(now);
        }
        others := others + [Call(event, now)];
        n := n - 1;
      }
    }
  }

  // ---- one attempt -----------------------------------------------------------------

  /** ResilientExecutor.scope: an error in the body rolls back; a commit on a broken connection is
      reported as unknown; any other failed commit is rolled back and classified. `body` is how the
      work in the scope ended, and `sent` how the COMMIT did, if there was one. */
  method RunScope(world: World, commit: bool)
      returns (a: Attempt, body: BodyResult, sent: Option<CommitResult>)
    modifies world
    ensures world.clock >= old(world.clock)
    ensures world.runs == old(world.runs) + 1 && body == world.fates(old(world.runs)).body
    ensures sent == if commit && body == BodyDone then Some(Reported(world.fates(old(world.runs)).commit)) else None
    ensures world.effects
         == old(world.effects)
            + if sent.Some? && (sent == Some(CommitDone) || world.fates(old(world.runs)).applied) then 1 else 0
    ensures body.BodyError? ==> a == Failed(body.error)
    ensures body == BodyEscaped ==> a == Escaped
    ensures body == BodyDone && !commit ==> a == Returned
    ensures sent == Some(CommitDone) ==> a == Returned && world.effects == old(world.effects) + 1
    ensures sent == Some(CommitLost) ==> a.Failed? && !a.error.retryable && a.error.stateUnknown
    ensures sent.Some? && sent.value.CommitRefused? ==> a == Failed(sent.value.error) && !a.error.stateUnknown
  {
    sent := None;
    body := world.RunBody();
    match body {
      case BodyError(e) => return Failed(e), body, sent;
      case BodyEscaped => return Escaped, body, sent;
      case BodyDone =>
    }
    if !commit {
      return Returned, body, sent;
    }
    var c := world.Commit();
    sent := Some(c);
    match c {
      case CommitDone => return Returned, body, sent;
      case CommitLost => return Failed(COMMIT_UNKNOWN), body, sent;
      case CommitRefused(e) => return Failed(e), body, sent;
    }
  }

  // ---- the record of one logical call ----------------------------------------------

  /** A back-off: its length in seconds, the two clock readings the guards use, the wake-up time,
      and what other tasks did to the breaker in between. */
  datatype Pause = Pause(delay: real, deadlineRead: real, budgetRead: real, wokeAt: real, others: seq<Call>)

  /** One run of the operation. `during`: what other tasks did to the breaker meanwhile. `body`, `sent`
      and `result`: how the work, the COMMIT if there was one, and with them the run ended. `applied`:
      its effect got committed. */
  datatype Try = Try(admittedAt: real, during: seq<Call>, body: BodyResult, sent: Option<CommitResult>,
                     result: Attempt, applied: bool, reportedAt: real, readAt: real, pause: Option<Pause>)

  datatype Outcome = Value | Raised(error: DbError) | Propagated | CircuitOpen

  /** The arguments of one logical call. */
  datatype Job = Job(query: Option<Query>, config: RetryConfig, override: Option<bool>,
                     deadline: Option<real>, commit: bool)

  /** The pause fits both the caller's deadline and the retry budget, and is slept in full. */
  predicate Fits(job: Job, started: real, p: Pause) {
    && (job.deadline.Some? ==> p.deadlineRead + p.delay < job.deadline.value)
    && (p.budgetRead - started) * 1000.0 + p.delay * 1000.0 < job.config.maximumTotalMs
    && p.budgetRead + p.delay <= p.wokeAt
  }

  /** The loop may go round again after this try: the policy allows it, and there is room to sleep. */
  predicate Retried(job: Job, started: real, attempt: int, t: Try) {
    && t.result.Failed?
    && ShouldRetry(t.result.error, job.query, job.config, attempt, job.override)
    && t.pause.Some?
    && Fits(job, started, t.pause.value)
    && t.admittedAt <= t.pause.value.budgetRead
  }

  /** A back-off of `delay` from `read` on would reach the deadline or use up the budget. */
  predicate Overruns(job: Job, started: real, delay: real, read: real, until: real) {
    && read <= until
    && ((job.deadline.Some? && read + delay >= job.deadline.value)
        || (read - started) * 1000.0 + delay * 1000.0 >= job.config.maximumTotalMs)
  }

  /** The reasons for which an error ends the call: the policy forbids another attempt, or the
      back-off drawn for it did not fit. */
  ghost predicate GivesUp(job: Job, started: real, attempt: int, e: DbError, until: real) {
    || !ShouldRetry(e, job.query, job.config, attempt, job.override)
    || exists delay, read :: IsBackoff(delay, attempt, job.config) && Overruns(job, started, delay, read, until)
  }

  /** The moment the loop is ready for its next round. */
  function ReadyAt(started: real, tries: seq<Try>): real {
    if tries == [] || tries[|tries| - 1].pause == None then started
    else tries[|tries| - 1].pause.value.wokeAt
  }

  /** Every try of the list was followed by another round. */
  predicate AllRetried(job: Job, started: real, tries: seq<Try>) {
    tries != [] ==>
      var front, last := tries[..|tries| - 1], tries[|tries| - 1];
      && AllRetried(job, started, front)
      && Retried(job, started, |tries|, last)
      && ReadyAt(started, front) <= last.admittedAt
  }

  function OutcomeOf(result: Attempt): Outcome {
    match result
    case Returned => Value
    case Failed(e) => Raised(e)
    case Escaped => Propagated
  }

  /** The shape of every record: retried tries, then a last try that decides the outcome, or a
      denial by the breaker before the operation could run again. */
  predicate Obeys(job: Job, started: real, tries: seq<Try>, outcome: Outcome) {
    if outcome == CircuitOpen then AllRetried(job, started, tries)
    else
      && |tries| > 0 && AllRetried(job, started, tries[..|tries| - 1])
      && tries[|tries| - 1].pause == None && outcome == OutcomeOf(tries[|tries| - 1].result)
  }

  /** What RunScope promises about each try. A refused or lost COMMIT may have been applied or not. */
  predicate Scoped(job: Job, t: Try) {
    && (t.sent.Some? <==> job.commit && t.body == BodyDone)
    && (t.applied ==> t.sent.Some?)
    && match t.body
       case BodyError(e) => t.result == Failed(e)
       case BodyEscaped => t.result == Escaped
       case BodyDone =>
         match t.sent
         case None => t.result == Returned
         case Some(CommitDone) => t.result == Returned && t.applied
         case Some(CommitLost) => t.result.Failed? && !t.result.error.retryable && t.result.error.stateUnknown
         case Some(CommitRefused(e)) => t.result == Failed(e) && !e.stateUnknown
  }

  /** The run met this fate. */
  predicate Met(t: Try, fate: Fate) {
    && t.body == fate.body
    && (t.sent.Some? ==>
          t.sent.value == Reported(fate.commit) && t.applied == (fate.commit == CommitDone || fate.applied))
  }

  /** The runs met the fates that were due, from the first on. */
  predicate AllMet(tries: seq<Try>, fates: nat -> Fate, first: nat) {
    forall i :: 0 <= i < |tries| ==> Met(tries[i], fates(first + i))
  }

  /** Every try ran in a scope, and every pause has a length the policy can draw. */
  ghost predicate Faithful(job: Job, tries: seq<Try>) {
    tries != [] ==>
      var last := tries[|tries| - 1];
      && Faithful(job, tries[..|tries| - 1])
      && Scoped(job, last)
      && (last.pause.Some? ==> IsBackoff(last.pause.value.delay, |tries|, job.config))
  }

  /** The hypothesis about the server: a COMMIT that it refuses with an error did not take effect. One
      that is lost with its connection may have. */
  predicate Honest(tries: seq<Try>) {
    forall i :: 0 <= i < |tries| && tries[i].sent.Some? && tries[i].sent.value.CommitRefused? ==> !tries[i].applied
  }

  function CommitCount(tries: seq<Try>): nat {
    if tries == [] then 0
    else CommitCount(tries[..|tries| - 1]) + if tries[|tries| - 1].applied then 1 else 0
  }

  // ---- what every record implies -----------------------------------------------------

  lemma {:induction false} RetriedTriesCommitNothing(job: Job, started: real, tries: seq<Try>)
    requires AllRetried(job, started, tries) && Faithful(job, tries) && Honest(tries)
    ensures CommitCount(tries) == 0
  {
    if tries != [] {
      var front := tries[..|tries| - 1];
      assert forall i :: 0 <= i < |front| ==> front[i] == tries[i];
      RetriedTriesCommitNothing(job, started, front);
      assert !tries[|tries| - 1].applied;
    }
  }

  lemma {:induction false} RetriedTryIs(job: Job, started: real, tries: seq<Try>, i: nat)
    requires AllRetried(job, started, tries) && i < |tries|
    ensures Retried(job, started, i + 1, tries[i])
  {
    if i < |tries| - 1 {
      RetriedTryIs(job, started, tries[..|tries| - 1], i);
    }
  }

  function RetriedPart(tries: seq<Try>, outcome: Outcome): seq<Try> {
    if outcome == CircuitOpen || tries == [] then tries else tries[..|tries| - 1]
  }

  /** Main result. Over every sequence of attempt outcomes a logical call commits its effect at
      most once, exactly once when it returns normally, and not at all when it fails with a known
      outcome. */
  lemma NeverCommitsTwice(job: Job, started: real, tries: seq<Try>, outcome: Outcome)
    requires Obeys(job, started, tries, outcome) && Faithful(job, tries) && Honest(tries)
    ensures CommitCount(tries) <= 1
    ensures outcome == Value ==> CommitCount(tries) == if job.commit then 1 else 0
    ensures outcome != Value && (outcome.Raised? ==> !outcome.error.stateUnknown) ==> CommitCount(tries) == 0
  {
    var front := RetriedPart(tries, outcome);
    assert forall i :: 0 <= i < |front| ==> front[i] == tries[i];
    assert Faithful(job, front);
    RetriedTriesCommitNothing(job, started, front);
  }

  lemma {:induction false} EachScoped(job: Job, tries: seq<Try>, i: nat)
    requires Faithful(job, tries) && i < |tries|
    ensures Scoped(job, tries[i])
  {
    if i < |tries| - 1 {
      EachScoped(job, tries[..|tries| - 1], i);
    }
  }

  /** Main result. After a COMMIT that is lost with its connection the operation never runs again, and the
      caller gets an error that says the outcome is unknown and that must not be retried. */
  lemma LostCommitIsLast(job: Job, started: real, tries: seq<Try>, outcome: Outcome, i: nat)
    requires Obeys(job, started, tries, outcome) && Faithful(job, tries)
    requires i < |tries| && tries[i].sent == Some(CommitLost)
    ensures i == |tries| - 1 && outcome.Raised? && !outcome.error.retryable && outcome.error.stateUnknown
  {
    EachScoped(job, tries, i);
    UnknownCommitIsLast(job, started, tries, outcome, i);
  }

  /** Unless the breaker denies it, the last run decides how the call ends: with a value exactly when the
      work and the COMMIT, if it is to commit, went well, else with the error of either, or the exception. */
  lemma LastTryDecides(job: Job, started: real, tries: seq<Try>, outcome: Outcome)
    requires Obeys(job, started, tries, outcome) && Faithful(job, tries) && outcome != CircuitOpen
    ensures tries != []
    ensures var last := tries[|tries| - 1];
            && (outcome == Value <==> last.body == BodyDone && (job.commit ==> last.sent == Some(CommitDone)))
            && (outcome == Propagated <==> last.body == BodyEscaped)
            && (last.body.BodyError? ==> outcome == Raised(last.body.error))
            && (last.sent.Some? && last.sent.value.CommitRefused? ==> outcome == Raised(last.sent.value.error))
  {
    EachScoped(job, tries, |tries| - 1);
  }

  /** A run whose work and whose COMMIT go well is the last, and the call returns. */
  lemma GoodTryReturns(job: Job, started: real, tries: seq<Try>, outcome: Outcome, i: nat)
    requires Obeys(job, started, tries, outcome) && Faithful(job, tries)
    requires i < |tries| && tries[i].body == BodyDone && (job.commit ==> tries[i].sent == Some(CommitDone))
    ensures i == |tries| - 1 && outcome == Value
  {
    EachScoped(job, tries, i);
    var front := RetriedPart(tries, outcome);
    if i < |front| {
      RetriedTryIs(job, started, front, i);
      assert false;
    }
  }

  /** After a commit whose outcome is unknown the operation never runs again, and the caller is
      told so. */
  lemma UnknownCommitIsLast(job: Job, started: real, tries: seq<Try>, outcome: Outcome, i: nat)
    requires Obeys(job, started, tries, outcome) && i < |tries|
    requires tries[i].result.Failed? && tries[i].result.error.stateUnknown
    ensures i == |tries| - 1 && outcome == Raised(tries[i].result.error)
  {
    var front := RetriedPart(tries, outcome);
    if i < |front| {
      RetriedTryIs(job, started, front, i);
      assert false;
    }
  }

  /** Another attempt only ever follows an error that the policy lets be retried. */
  lemma RetriedOnlyWhenAllowed(job: Job, started: real, tries: seq<Try>, outcome: Outcome, i: nat)
    requires Obeys(job, started, tries, outcome) && i < |tries|
    requires i < |tries| - 1 || outcome == CircuitOpen
    ensures tries[i].result.Failed? && i + 1 < job.config.attempts
    ensures tries[i].result.error.retryable && !tries[i].result.error.stateUnknown
    ensures if job.query.Some? && job.query.value.isWrite
            then job.config.retryWrites
                 && (job.override == Some(true) || (job.override == None && job.query.value.idempotent))
            else job.config.retryReads
  {
    RetriedTryIs(job, started, RetriedPart(tries, outcome), i);
  }

  /** The gate that the policy puts before any further attempt of this call. */
  predicate GateOpen(job: Job) {
    if job.query.Some? && job.query.value.isWrite
    then job.config.retryWrites && IsIdempotent(job.query, job.override)
    else job.config.retryReads
  }

  /** Conversely, an error for which the policy allows another attempt ends the call only for lack of time:
      by then the longest back-off of this attempt would reach the deadline or use up the budget. */
  lemma AllowedIsGivenUpForTime(job: Job, started: real, attempt: int, e: DbError, until: real)
    requires GivesUp(job, started, attempt, e, until)
    requires e.retryable && !e.stateUnknown && attempt < job.config.attempts
    requires if job.query.Some? && job.query.value.isWrite
             then job.config.retryWrites
                  && (job.override == Some(true) || (job.override == None && job.query.value.idempotent))
             else job.config.retryReads
    requires job.config.initialDelayMs >= 0.0 && job.config.multiplier >= 0.0 && job.config.maximumDelayMs >= 0.0
    ensures var longest := BackoffDelayMs(attempt, job.config.(fullJitter := false), 0.0);
            || (job.deadline.Some? && until + longest / 1000.0 >= job.deadline.value)
            || (until - started) * 1000.0 + longest >= job.config.maximumTotalMs
  {
    var delay, read :| IsBackoff(delay, attempt, job.config) && Overruns(job, started, delay, read, until);
    var rand :| 0.0 <= rand < 1.0 && delay == BackoffDelayMs(attempt, job.config, rand) / 1000.0;
    var longest := BackoffDelayMs(attempt, job.config.(fullJitter := false), 0.0);
    JitterOnlyShortens(attempt, job.config, rand);
    assert delay <= longest / 1000.0 && delay * 1000.0 <= longest;
  }

  /** A second attempt of a committing call is possible: attempts are left, the gate is open, and some
      first back-off fits the budget. */
  ghost predicate MayRepeat(job: Job) {
    && job.commit && job.config.attempts > 1 && GateOpen(job)
    && exists rand :: 0.0 <= rand < 1.0 && BackoffDelayMs(1, job.config, rand) < job.config.maximumTotalMs
  }

  ghost predicate CommitsAtMostOnce(job: Job, started: real, tries: seq<Try>, outcome: Outcome) {
    Obeys(job, started, tries, outcome) && Faithful(job, tries) ==> CommitCount(tries) <= 1
  }

  lemma {:induction false} FirstTry(job: Job, started: real, tries: seq<Try>)
    requires tries != [] && AllRetried(job, started, tries) && Faithful(job, tries)
    ensures started <= tries[0].admittedAt && Retried(job, started, 1, tries[0])
    ensures IsBackoff(tries[0].pause.value.delay, 1, job.config)
  {
    RetriedTryIs(job, started, tries, 0);
    if |tries| > 1 {
      FirstTry(job, started, tries[..|tries| - 1]);
    }
  }

  lemma {:induction false} NothingToCommit(job: Job, tries: seq<Try>)
    requires !job.commit && Faithful(job, tries)
    ensures CommitCount(tries) == 0
  {
    if tries != [] {
      NothingToCommit(job, tries[..|tries| - 1]);
    }
  }

  lemma {:induction false} FaithfulPrefix(job: Job, tries: seq<Try>)
    requires tries != [] && Faithful(job, tries)
    ensures Faithful(job, tries[..|tries| - 1])
  {}

  /** Whatever the server does, a call that was retried could have been. */
  lemma RetriedMayRepeat(job: Job, started: real, tries: seq<Try>, outcome: Outcome)
    requires Obeys(job, started, tries, outcome) && Faithful(job, tries) && job.commit
    requires RetriedPart(tries, outcome) != []
    ensures MayRepeat(job)
  {
    var retried := RetriedPart(tries, outcome);
    if outcome != CircuitOpen {
      FaithfulPrefix(job, tries);
    }
    FirstTry(job, started, retried);
    var p := retried[0].pause.value;
    assert Fits(job, started, p) && started <= p.budgetRead;
    var rand :| 0.0 <= rand < 1.0 && p.delay == BackoffDelayMs(1, job.config, rand) / 1000.0;
    assert p.delay * 1000.0 == BackoffDelayMs(1, job.config, rand);
  }

  /** The record of a server that commits and then reports a retryable error, at one moment. */
  lemma DishonestCommitIsRepeated(job: Job) returns (started: real, tries: seq<Try>)
    requires MayRepeat(job)
    ensures Obeys(job, started, tries, Value) && Faithful(job, tries) && CommitCount(tries) == 2 && !Honest(tries)
  {
    var rand :| 0.0 <= rand < 1.0 && BackoffDelayMs(1, job.config, rand) < job.config.maximumTotalMs;
    var delay := BackoffDelayMs(1, job.config, rand) / 1000.0;
    var slept := if delay > 0.0 then delay else 0.0;
    started := if job.deadline.Some? then job.deadline.value - slept - 1.0 else 0.0;
    var pause := Pause(delay, started, started, started + slept, []);
    var e := DbError(Concurrency, true, false);
    var first := Try(started, [], BodyDone, Some(CommitRefused(e)), Failed(e), true, started, started, Some(pause));
    var second := Try(started + slept, [], BodyDone, Some(CommitDone), Returned, true, started + slept,
                      started + slept, None);
    assert delay * 1000.0 < job.config.maximumTotalMs;
    assert IsBackoff(delay, 1, job.config);
    assert Retried(job, started, 1, first) && Scoped(job, first) && Scoped(job, second);
    tries := [first, second];
    var front := [first];
    var none: seq<Try> := [];
    assert tries[..|tries| - 1] == front && front[..|front| - 1] == none;
    assert AllRetried(job, started, none) && Faithful(job, none) && ReadyAt(started, none) == started;
    assert AllRetried(job, started, front) && Faithful(job, front) && CommitCount(front) == 1;
  }

  /** Main result. Whatever the server does, a call commits at most once in every record exactly when a
      second attempt of it is impossible. Statements that are not a `Query` go through the gate for
      reads. */
  lemma CommitsOnceExactlyWhen(job: Job)
    ensures (forall started, tries, outcome :: CommitsAtMostOnce(job, started, tries, outcome)) <==> !MayRepeat(job)
  {
    if MayRepeat(job) {
      var started, tries := DishonestCommitIsRepeated(job);
      assert !CommitsAtMostOnce(job, started, tries, Value);
    } else {
      forall started, tries, outcome ensures CommitsAtMostOnce(job, started, tries, outcome) {
        if Obeys(job, started, tries, outcome) && Faithful(job, tries) {
          UnrepeatableCommitsOnce(job, started, tries, outcome);
        }
      }
    }
  }

  lemma UnrepeatableCommitsOnce(job: Job, started: real, tries: seq<Try>, outcome: Outcome)
    requires Obeys(job, started, tries, outcome) && Faithful(job, tries) && !MayRepeat(job)
    ensures CommitCount(tries) <= 1
  {
    if !job.commit {
      NothingToCommit(job, tries);
    } else if RetriedPart(tries, outcome) != [] {
      RetriedMayRepeat(job, started, tries, outcome);
    } else if tries != [] {
      assert tries[..|tries| - 1] == [];
    }
  }

  /** At most `attempts` operations run (and one when the configured number is not positive). */
  lemma AttemptsBounded(job: Job, started: real, tries: seq<Try>, outcome: Outcome)
    requires Obeys(job, started, tries, outcome)
    ensures |tries| <= if job.config.attempts > 1 then job.config.attempts else 1
  {
    var retried := RetriedPart(tries, outcome);
    if retried != [] {
      var e := retried[|retried| - 1].result.error;
      assert ShouldRetry(e, job.query, job.config, |retried|, job.override);
    }
  }

  /** A write that is not idempotent, or whose retry is not enabled, is never retried. */
  lemma UnsafeWriteRunsOnce(job: Job, started: real, tries: seq<Try>, outcome: Outcome)
    requires Obeys(job, started, tries, outcome)
    requires job.query.Some? && job.query.value.isWrite
    requires !job.config.retryWrites || !IsIdempotent(job.query, job.override)
    ensures |tries| <= 1
    ensures outcome == CircuitOpen ==> tries == []
  {
    var retried := RetriedPart(tries, outcome);
    if retried != [] {
      assert false;
    }
  }

  function SleepTotal(tries: seq<Try>): real {
    if tries == [] then 0.0
    else SleepTotal(tries[..|tries| - 1])
         + match tries[|tries| - 1].pause
           case Some(p) => p.delay
           case None => 0.0
  }

  lemma {:induction false} SleepsElapse(job: Job, started: real, tries: seq<Try>)
    requires AllRetried(job, started, tries)
    ensures started + SleepTotal(tries) <= ReadyAt(started, tries)
    ensures tries != [] ==> SleepTotal(tries) * 1000.0 < job.config.maximumTotalMs
  {
    if tries != [] {
      SleepsElapse(job, started, tries[..|tries| - 1]);
      assert Retried(job, started, |tries|, tries[|tries| - 1]);
    }
  }

  /** The back-off sleeps of a call add up to less than the retry budget. */
  lemma SleepsStayInBudget(job: Job, started: real, tries: seq<Try>, outcome: Outcome)
    requires Obeys(job, started, tries, outcome)
    ensures SleepTotal(tries) != 0.0 ==> SleepTotal(tries) * 1000.0 < job.config.maximumTotalMs
  {
    SleepsElapse(job, started, RetriedPart(tries, outcome));
  }

  /** A sleep is only started if, as of the clock reading the guard takes, it ends before the caller's
      deadline. The sleep itself starts a little later. */
  lemma NoSleepReachesDeadline(job: Job, started: real, tries: seq<Try>, outcome: Outcome, i: nat)
    requires Obeys(job, started, tries, outcome) && job.deadline.Some?
    requires i < |tries| && tries[i].pause.Some?
    ensures tries[i].pause.value.deadlineRead + tries[i].pause.value.delay < job.deadline.value
  {
    RetriedTryIs(job, started, RetriedPart(tries, outcome), i);
  }

  // ---- how a call drives the breaker ---------------------------------------------------

  function Report(t: Try): seq<Call> {
    match t.result
    case Returned => [Call(Success, t.reportedAt), Call(ReadState, t.readAt)]
    case Failed(e) =>
      (if CountsAsFailure(e) then [Call(Failure, t.reportedAt)] else []) + [Call(ReadState, t.readAt)]
    case Escaped => []
  }

  /** A try is silent to the breaker, but for reading its state, exactly when it ends in an error that
      does not blame the backend, or escapes. It reports a success exactly when it returns, and a failure
      exactly when it ends in an error of one of the four categories that say the backend is unhealthy. */
  lemma SilentExactlyWhen(t: Try)
    ensures (forall i :: 0 <= i < |Report(t)| ==> Report(t)[i].event == ReadState)
            <==> t.result == Escaped || (t.result.Failed? && !CountsAsFailure(t.result.error))
    ensures (exists i :: 0 <= i < |Report(t)| && Report(t)[i].event == Success) <==> t.result == Returned
    ensures (exists i :: 0 <= i < |Report(t)| && Report(t)[i].event == Failure)
            <==> t.result.Failed?
                 && var c := t.result.error.category;
                    c == Availability || c == Connection || c == Pool || c == Timeout
  {
    assert t.result != Escaped ==> Report(t) != [];
    if Report(t) != [] {
      assert Report(t)[0].event in {Success, Failure, ReadState};
    }
  }

  function CallsOf(t: Try): seq<Call> {
    [Call(Allow, t.admittedAt), Call(ReadState, t.admittedAt)] + t.during + Report(t)
    + Asleep(t.pause)
  }

  /** A try asks the breaker once, before anything else, and what it reports later never uses up a trial. */
  lemma AsksOnceAndFirst(t: Try)
    ensures CallsOf(t)[0] == Call(Allow, t.admittedAt)
    ensures Count(CallsOf(t), Allow) == 1 + Count(t.during, Allow) + Count(Asleep(t.pause), Allow)
  {
    var ask := [Call(Allow, t.admittedAt), Call(ReadState, t.admittedAt)];
    assert ask[1..] == [Call(ReadState, t.admittedAt)] && ask[1..][1..] == [];
    NoAllowReported(t);
    CountConcat(ask, t.during, Allow);
    CountConcat(ask + t.during, Report(t), Allow);
    CountConcat(ask + t.during + Report(t), Asleep(t.pause), Allow);
  }

  lemma NoAllowReported(t: Try)
    ensures Count(Report(t), Allow) == 0
  {
    var rest := [Call(ReadState, t.readAt)];
    var none: seq<Call> := [];
    assert Count(none, Allow) == 0 && rest[1..] == none && Count(rest, Allow) == 0;
    assert t.result != Escaped && Report(t)[0].event != ReadState ==> Report(t)[1..] == rest;
    assert t.result != Escaped && Report(t)[0].event == ReadState ==> Report(t) == rest;
  }

  /** Every call on the breaker over the first tries of the record, in order. */
  function Driven(tries: seq<Try>): seq<Call> {
    if tries == [] then [] else Driven(tries[..|tries| - 1]) + CallsOf(tries[|tries| - 1])
  }

  /** What a breaker that has seen `calls` answers at `now`; without a breaker everything goes. */
  ghost predicate AdmittedBy(breaker: CircuitBreaker?, calls: seq<Call>, now: real) {
    breaker == null || Admits(breaker.settings, Run(breaker.settings, INITIAL, calls), now)
  }

  /** The breaker, in the state the earlier calls left it in, admitted every try of the record. */
  ghost predicate AllAdmitted(breaker: CircuitBreaker?, earlier: seq<Call>, tries: seq<Try>) {
    tries != [] ==>
      var front := tries[..|tries| - 1];
      && AllAdmitted(breaker, earlier, front)
      && AdmittedBy(breaker, earlier + Driven(front), tries[|tries| - 1].admittedAt)
  }

  ghost function CallsOn(breaker: CircuitBreaker?): seq<Call>
    reads breaker
  {
    if breaker == null then [] else breaker.calls
  }

  ghost predicate Usable(breaker: CircuitBreaker?, now: real)
    reads breaker
  {
    breaker != null ==> breaker.Valid() && breaker.clock <= now
  }

  // ---- the loop ----------------------------------------------------------------------

  /** Asking the breaker, and publishing its state. */
  method Ask(breaker: CircuitBreaker?, now: real) returns (allowed: bool)
    requires Usable(breaker, now)
    modifies breaker
    ensures Usable(breaker, now)
    ensures breaker != null ==> CallsOn(breaker) == old(CallsOn(breaker)) + [Call(Allow, now), Call(ReadState, now)]
    ensures allowed == AdmittedBy(breaker, old(CallsOn(breaker)), now)
  {
    allowed := true;
    if breaker != null {
      allowed := breaker.Allow(now);
      var s := breaker.State(now);
    }
  }

  /** What is reported to the breaker about a result; only errors that blame the backend count. */
  method Feedback(world: World, breaker: CircuitBreaker?, t0: Try) returns (t: Try)
    requires Usable(breaker, world.clock)
    modifies world`clock, breaker
    ensures t == t0.(reportedAt := t.reportedAt, readAt := t.readAt)
    ensures world.clock >= old(world.clock) && Usable(breaker, world.clock)
    ensures breaker != null ==> CallsOn(breaker) == old(CallsOn(breaker)) + Report(t)
  {
    t := t0;
    if breaker == null || t.result == Escaped {
      return;
    }
    if t.result == Returned {
      var reportedAt := world.Monotonic();
      breaker.OnSuccess(reportedAt);
      t := t.(reportedAt := reportedAt);
    } else if CountsAsFailure(t.result.error) {
      var reportedAt := world.Monotonic();
      breaker.OnFailure(reportedAt);
      t := t.(reportedAt := reportedAt);
    }
    var readAt := world.Monotonic();
    var s := breaker.State(readAt);
    t := t.(readAt := readAt);
  }

  /** One run of the operation, as it goes into the record. */
  method RunAttempt(world: World, job: Job, admittedAt: real, during: seq<Call>) returns (t: Try)
    modifies world
    ensures world.clock >= old(world.clock) && world.runs == old(world.runs) + 1
    ensures world.effects == old(world.effects) + if t.applied then 1 else 0
    ensures Scoped(job, t) && Met(t, world.fates(old(world.runs)))
    ensures t.admittedAt == admittedAt && t.during == during && t.pause == None
  {
    var before := world.effects;
    var result, body, sent := RunScope(world, job.commit);
    t := Try(admittedAt, during, body, sent, result, world.effects > before, 0.0, 0.0, None);
  }

  /** Asking the breaker and, if it admits the call, running the operation once. */
  method AdmitAndRun(world: World, breaker: CircuitBreaker?, job: Job)
      returns (ran: Option<Try>, now: real)
    requires Usable(breaker, world.clock)
    modifies world, breaker
    ensures old(world.clock) <= now <= world.clock && Usable(breaker, world.clock)
    ensures ran.Some? == AdmittedBy(breaker, old(CallsOn(breaker)), now)
    ensures ran == None ==>
              && breaker != null && world.effects == old(world.effects) && world.runs == old(world.runs)
              && CallsOn(breaker) == old(CallsOn(breaker)) + [Call(Allow, now), Call(ReadState, now)]
    ensures ran.Some? ==> world.runs == old(world.runs) + 1 && Met(ran.value, world.fates(old(world.runs)))
    ensures ran.Some? ==>
              var t := ran.value;
              && t.admittedAt == now && t.pause == None && Scoped(job, t)
              && world.effects == old(world.effects) + (if t.applied then 1 else 0)
              && (breaker != null ==> CallsOn(breaker) == old(CallsOn(breaker)) + CallsOf(t))
  {
    now := world.Monotonic();
    var allowed := Ask(breaker, now);
    if !allowed {
      return None, now;
    }
    var during := world.OtherTasks(breaker);
    var t := RunAttempt(world, job, now, during);
    t := Feedback(world, breaker, t);
    ran := Some(t);
  }

  method Backoff(world: World, attempt: int, config: RetryConfig) returns (delay: real)
    ensures IsBackoff(delay, attempt, config)
  {
    var rand := world.Random();
    delay := BackoffDelayMs(attempt, config, rand) / 1000.0;
  }

  /** After a failed try: sleep before the next round, or stop when the policy refuses or the sleep
      would reach the deadline or exhaust the budget. */
  method PauseOrStop(world: World, breaker: CircuitBreaker?, job: Job, started: real, attempt: nat, t: Try)
      returns (pause: Option<Pause>)
    requires t.result.Failed? && t.admittedAt <= world.clock
    requires Usable(breaker, world.clock)
    modifies world`clock, breaker
    ensures world.clock >= old(world.clock) && world.effects == old(world.effects)
    ensures Usable(breaker, world.clock)
    ensures breaker != null ==> CallsOn(breaker) == old(CallsOn(breaker)) + Asleep(pause)
    ensures pause.Some? ==>
              && IsBackoff(pause.value.delay, attempt, job.config)
              && Retried(job, started, attempt, t.(pause := pause))
              && pause.value.wokeAt == world.clock
    ensures pause == None ==> GivesUp(job, started, attempt, t.result.error, world.clock)
  {
    if !ShouldRetry(t.result.error, job.query, job.config, attempt, job.override) {
      return None;
    }
    var delay := Backoff(world, attempt, job.config);
    var deadlineRead := world.Monotonic();
    if job.deadline.Some? && deadlineRead + delay >= job.deadline.value {
      assert Overruns(job, started, delay, deadlineRead, world.clock);
      return None;
    }
    var budgetRead := world.Monotonic();
    var elapsedMs := (budgetRead - started) * 1000.0;
    if elapsedMs + delay * 1000.0 >= job.config.maximumTotalMs {
      assert Overruns(job, started, delay, budgetRead, world.clock);
      return None;
    }
    var others := world.OtherTasks(breaker);
    world.Sleep(delay);
    pause := Some(Pause(delay, deadlineRead, budgetRead, world.clock, others));
  }

  function Asleep(pause: Option<Pause>): seq<Call> {
    match pause
    case Some(p) => p.others
    case None => []
  }

  /** A pause after a try only adds what other tasks did meanwhile. */
  lemma PauseGrows(earlier: seq<Call>, t: Try, pause: Option<Pause>)
    requires t.pause == None
    ensures earlier + CallsOf(t.(pause := pause)) == earlier + CallsOf(t) + Asleep(pause)
  {
    assert CallsOf(t.(pause := pause)) == CallsOf(t) + Asleep(pause);
  }

  /** One round of the loop: None when the breaker denies it. */
  method RunRound(world: World, breaker: CircuitBreaker?, job: Job, started: real, attempt: nat)
      returns (ran: Option<Try>, now: real)
    requires Usable(breaker, world.clock)
    modifies world, breaker
    ensures old(world.clock) <= now <= world.clock && Usable(breaker, world.clock)
    ensures ran.Some? == AdmittedBy(breaker, old(CallsOn(breaker)), now)
    ensures ran == None ==>
              && breaker != null && world.effects == old(world.effects) && world.runs == old(world.runs)
              && CallsOn(breaker) == old(CallsOn(breaker)) + [Call(Allow, now), Call(ReadState, now)]
    ensures ran.Some? ==> world.runs == old(world.runs) + 1 && Met(ran.value, world.fates(old(world.runs)))
    ensures ran.Some? ==>
              var t := ran.value;
              && t.admittedAt == now && Scoped(job, t)
              && world.effects == old(world.effects) + (if t.applied then 1 else 0)
              && (breaker != null ==> CallsOn(breaker) == old(CallsOn(breaker)) + CallsOf(t))
              && (t.pause.Some? ==>
                    && IsBackoff(t.pause.value.delay, attempt, job.config)
                    && Retried(job, started, attempt, t)
                    && t.pause.value.wokeAt == world.clock)
              && (t.pause == None && t.result.Failed? ==>
                    GivesUp(job, started, attempt, t.result.error, world.clock))
  {
    ghost var before := CallsOn(breaker);
    ran, now := AdmitAndRun(world, breaker, job);
    if ran.Some? && ran.value.result.Failed? {
      var t := ran.value;
      var pause := PauseOrStop(world, breaker, job, started, attempt, t);
      PauseGrows(before, t, pause);
      ran := Some(t.(pause := pause));
    }
  }

  /** Adding a try to a record that keeps the rules. */
  lemma RecordGrows(breaker: CircuitBreaker?, earlier: seq<Call>, job: Job, started: real,
                    tries: seq<Try>, t: Try, fates: nat -> Fate, first: nat)
      returns (longer: seq<Try>)
    requires AllMet(tries, fates, first) && Met(t, fates(first + |tries|))
    requires Faithful(job, tries) && Scoped(job, t)
    requires t.pause.Some? ==> IsBackoff(t.pause.value.delay, |tries| + 1, job.config)
    requires AllAdmitted(breaker, earlier, tries) && AdmittedBy(breaker, earlier + Driven(tries), t.admittedAt)
    requires AllRetried(job, started, tries) && ReadyAt(started, tries) <= t.admittedAt
    requires t.pause.Some? ==> Retried(job, started, |tries| + 1, t)
    ensures |longer| == |tries| + 1 && Faithful(job, longer) && AllMet(longer, fates, first)
    ensures CommitCount(longer) == CommitCount(tries) + if t.applied then 1 else 0
    ensures AllAdmitted(breaker, earlier, longer)
    ensures earlier + Driven(longer) == earlier + Driven(tries) + CallsOf(t)
    ensures t.pause == None ==> Obeys(job, started, longer, OutcomeOf(t.result))
    ensures t.pause.Some? ==>
              && AllRetried(job, started, longer) && ReadyAt(started, longer) == t.pause.value.wokeAt
              && |longer| < job.config.attempts
  {
    longer := tries + [t];
    MetGrows(tries, t, longer, fates, first);
    FaithfulGrows(job, tries, t, longer);
    AdmissionGrows(breaker, earlier, tries, t, longer);
    RetryGrows(job, started, tries, t, longer);
  }

  lemma MetGrows(tries: seq<Try>, t: Try, longer: seq<Try>, fates: nat -> Fate, first: nat)
    requires longer == tries + [t] && AllMet(tries, fates, first) && Met(t, fates(first + |tries|))
    ensures AllMet(longer, fates, first)
  {
    forall i | 0 <= i < |longer| ensures Met(longer[i], fates(first + i)) {
      if i < |tries| {
        assert longer[i] == tries[i];
      }
    }
  }

  lemma FaithfulGrows(job: Job, tries: seq<Try>, t: Try, longer: seq<Try>)
    requires longer == tries + [t] && Faithful(job, tries) && Scoped(job, t)
    requires t.pause.Some? ==> IsBackoff(t.pause.value.delay, |tries| + 1, job.config)
    ensures Faithful(job, longer)
    ensures CommitCount(longer) == CommitCount(tries) + if t.applied then 1 else 0
  {
    assert longer[..|longer| - 1] == tries;
  }

  lemma AdmissionGrows(breaker: CircuitBreaker?, earlier: seq<Call>, tries: seq<Try>, t: Try, longer: seq<Try>)
    requires longer == tries + [t]
    requires AllAdmitted(breaker, earlier, tries) && AdmittedBy(breaker, earlier + Driven(tries), t.admittedAt)
    ensures AllAdmitted(breaker, earlier, longer)
    ensures earlier + Driven(longer) == earlier + Driven(tries) + CallsOf(t)
  {
    assert longer[..|longer| - 1] == tries;
  }

  lemma RetryGrows(job: Job, started: real, tries: seq<Try>, t: Try, longer: seq<Try>)
    requires longer == tries + [t]
    requires AllRetried(job, started, tries) && ReadyAt(started, tries) <= t.admittedAt
    requires t.pause.Some? ==> Retried(job, started, |tries| + 1, t)
    ensures t.pause == None ==> Obeys(job, started, longer, OutcomeOf(t.result))
    ensures t.pause.Some? ==>
              && AllRetried(job, started, longer) && ReadyAt(started, longer) == t.pause.value.wokeAt
              && |longer| < job.config.attempts
  {
    assert longer[..|longer| - 1] == tries;
  }

  /** The record tells all that this call did to the server and everyone did to the breaker. */
  ghost predicate Recorded(world: World, breaker: CircuitBreaker?, earlier: seq<Call>, effects: nat, first: nat,
                           job: Job, tries: seq<Try>)
    reads world, breaker
  {
    && Usable(breaker, world.clock)
    && (breaker != null ==> CallsOn(breaker) == earlier + Driven(tries))
    && AllAdmitted(breaker, earlier, tries) && Faithful(job, tries)
    && world.effects == effects + CommitCount(tries)
    && world.runs == first + |tries| && AllMet(tries, world.fates, first)
  }

  /** One round of the loop together with its entry in the record. */
  method RunAndRecord(world: World, breaker: CircuitBreaker?, job: Job, started: real, attempt: nat,
                      ghost earlier: seq<Call>, ghost effects: nat, ghost first: nat, ghost tries: seq<Try>)
      returns (ran: Option<Try>, now: real, ghost longer: seq<Try>)
    requires Recorded(world, breaker, earlier, effects, first, job, tries) && attempt == |tries| + 1
    requires AllRetried(job, started, tries) && ReadyAt(started, tries) <= world.clock
    modifies world, breaker
    ensures world.clock >= old(world.clock)
    ensures ran == None ==>
              && breaker != null && Usable(breaker, world.clock) && world.effects == old(world.effects)
              && world.runs == old(world.runs)
              && CallsOn(breaker) == earlier + Driven(tries) + [Call(Allow, now), Call(ReadState, now)]
              && !AdmittedBy(breaker, earlier + Driven(tries), now)
    ensures ran.Some? ==> |longer| == attempt && Recorded(world, breaker, earlier, effects, first, job, longer)
    ensures ran.Some? && ran.value.pause.Some? ==>
              && AllRetried(job, started, longer) && ReadyAt(started, longer) <= world.clock
              && attempt < job.config.attempts
    ensures ran.Some? && ran.value.pause == None ==>
              && Obeys(job, started, longer, OutcomeOf(ran.value.result))
              && (ran.value.result.Failed? ==>
                    GivesUp(job, started, attempt, ran.value.result.error, world.clock))
  {
    longer := tries;
    ran, now := RunRound(world, breaker, job, started, attempt);
    if ran.Some? {
      longer := RecordGrows(breaker, earlier, job, started, tries, ran.value, world.fates, first);
    }
  }

  method RunWithRetries(world: World, breaker: CircuitBreaker?, job: Job)
      returns (outcome: Outcome, ghost started: real, ghost tries: seq<Try>, ghost deniedAt: real)
    requires Usable(breaker, world.clock)
    modifies world, breaker
    ensures Obeys(job, started, tries, outcome) && Faithful(job, tries)
    ensures world.effects == old(world.effects) + CommitCount(tries)
    ensures Usable(breaker, world.clock) && world.clock >= old(world.clock)
    ensures world.runs == old(world.runs) + |tries| && AllMet(tries, world.fates, old(world.runs))
    ensures AllAdmitted(breaker, old(CallsOn(breaker)), tries)
    ensures breaker != null ==>
              CallsOn(breaker) == old(CallsOn(breaker)) + Driven(tries)
                + if outcome == CircuitOpen then [Call(Allow, deniedAt), Call(ReadState, deniedAt)] else []
    ensures outcome == CircuitOpen ==> !AdmittedBy(breaker, old(CallsOn(breaker)) + Driven(tries), deniedAt)
    ensures outcome.Raised? ==> GivesUp(job, started, |tries|, outcome.error, world.clock)
  {
    ghost var earlier, effects, first := CallsOn(breaker), world.effects, world.runs;
    var attempt := 0;
    var start := world.Monotonic();
    started, tries, deniedAt := start, [], start;
    assert earlier == earlier + Driven(tries);
    while true
      invariant attempt == |tries| && Recorded(world, breaker, earlier, effects, first, job, tries)
      invariant AllRetried(job, started, tries) && ReadyAt(started, tries) <= world.clock
      invariant world.clock >= old(world.clock)
      invariant attempt > 0 ==> attempt < job.config.attempts
      decreases job.config.attempts - attempt
    {
      attempt := attempt + 1;
      var ran, now, longer := RunAndRecord(world, breaker, job, start, attempt, earlier, effects, first, tries);
      if ran == None {
        outcome, deniedAt := CircuitOpen, now;
        return;
      }
      tries := longer;
      if ran.value.pause == None {
        outcome := OutcomeOf(ran.value.result);
        assert CallsOn(breaker) == CallsOn(breaker) + [];
        return;
      }
    }
  }

  /** ResilientExecutor.execute_with_resilience, seen by the caller: under the hypothesis about the
      server the effect is committed at most once, and exactly once on a normal return. */
  method ExecuteWithResilience(world: World, breaker: CircuitBreaker?, job: Job)
      returns (outcome: Outcome, ghost tries: seq<Try>)
    requires Usable(breaker, world.clock)
    modifies world, breaker
    ensures Usable(breaker, world.clock) && world.clock >= old(world.clock)
    ensures world.effects == old(world.effects) + CommitCount(tries)
    ensures Honest(tries) ==> old(world.effects) <= world.effects <= old(world.effects) + 1
    ensures Honest(tries) && outcome == Value ==>
              world.effects == old(world.effects) + if job.commit then 1 else 0
    ensures Honest(tries) && (outcome.Raised? ==> !outcome.error.stateUnknown) && outcome != Value ==>
              world.effects == old(world.effects)
    ensures |tries| <= if job.config.attempts > 1 then job.config.attempts else 1
    ensures !MayRepeat(job) ==> old(world.effects) <= world.effects <= old(world.effects) + 1
    ensures outcome == CircuitOpen ==> breaker != null
    ensures old(CallsOn(breaker)) + (if breaker != null then Driven(tries) else []) <= CallsOn(breaker)
    ensures outcome != CircuitOpen || (breaker != null && old(breaker.state) == Closed) ==> tries != []
    ensures world.runs == old(world.runs) + |tries| && AllMet(tries, world.fates, old(world.runs))
    ensures forall i :: 0 <= i < |tries| ==> Scoped(job, tries[i])
    ensures var fate := world.fates(old(world.runs));
            tries != [] && fate.body == BodyDone && (job.commit ==> fate.commit == CommitDone) ==>
              && outcome == Value && |tries| == 1
              && world.effects == old(world.effects) + if job.commit then 1 else 0
    ensures forall i :: 0 <= i < |tries| && tries[i].sent == Some(CommitLost) ==>
              i == |tries| - 1 && outcome.Raised? && !outcome.error.retryable && outcome.error.stateUnknown
  {
    ghost var started, deniedAt;
    ghost var first, earlier := world.runs, CallsOn(breaker);
    outcome, started, tries, deniedAt := RunWithRetries(world, breaker, job);
    assert earlier + Driven([]) == earlier;
    if tries != [] {
      EachScoped(job, tries, 0);
      assert Met(tries[0], world.fates(first + 0));
      if tries[0].body == BodyDone && (job.commit ==> tries[0].sent == Some(CommitDone)) {
        GoodTryReturns(job, started, tries, outcome, 0);
        assert tries[..0] == [];
      }
    }
    AttemptsBounded(job, started, tries, outcome);
    if !MayRepeat(job) {
      UnrepeatableCommitsOnce(job, started, tries, outcome);
    }
    if Honest(tries) {
      NeverCommitsTwice(job, started, tries, outcome);
    }
    forall i | 0 <= i < |tries| ensures Scoped(job, tries[i]) {
      EachScoped(job, tries, i);
    }
    forall i | 0 <= i < |tries| && tries[i].sent == Some(CommitLost)
      ensures i == |tries| - 1 && outcome.Raised? && !outcome.error.retryable && outcome.error.stateUnknown
    {
      LostCommitIsLast(job, started, tries, outcome, i);
    }
  }
}
