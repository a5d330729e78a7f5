/** The tiered concurrency limiter of `_async/resilience.py` and the order in which operations take
    its slots: `database`, then `reads`, `writes` or `bulk`, then `expensive`, then a pool connection. */
module Limiter {
  import opened Wrappers

  datatype Tier = Database | Reads | Writes | Bulk | Expensive | Pool

  function Rank(t: Tier): nat {
    match t
    case Database => 0
    case Reads => 1
    case Writes => 1
    case Bulk => 1
    case Expensive => 2
    case Pool => 3
  }

  /** What an operation is, as far as its slots are concerned. */
  datatype Kind =
    | Statement(isWrite: bool, expensive: bool)   // execute_with_resilience
    | BulkWrite                                   // _bulk_write, copy_records
    | Scope                                       // transaction(), connection(): a connection only

  function PlanOf(kind: Kind): (plan: seq<Tier>)
    ensures Ascending(plan) && plan != []
  {
    match kind
    case Statement(isWrite, expensive) =>
      [Database, if isWrite then Writes else Reads] + (if expensive then [Expensive] else []) + [Pool]
    case BulkWrite => [Database, Bulk, Pool]
    case Scope => [Pool]
  }

  predicate Ascending(plan: seq<Tier>) {
    forall i, j :: 0 <= i < j < |plan| ==> Rank(plan[i]) < Rank(plan[j])
  }

  // ---- the limiter object ----------------------------------------------------------

  /** A tier with a missing, absent or non-positive limit is unbounded. */
  function CapsOf(limits: map<Tier, Option<int>>): map<Tier, nat> {
    map t | t in limits && limits[t].Some? && limits[t].value > 0 :: limits[t].value
  }

  predicate Free(free: map<Tier, nat>, t: Tier) {
    t !in free || free[t] > 0
  }

  function Taken(free: map<Tier, nat>, t: Tier): map<Tier, nat>
    requires Free(free, t)
  {
    if t in free then free[t := free[t] - 1] else free
  }

  function Returned(free: map<Tier, nat>, t: Tier): map<Tier, nat> {
    if t in free then free[t := free[t] + 1] else free
  }

  // ---- any number of tasks -----------------------------------------------------------

  datatype Phase = Acquiring | Running | Releasing | Finished

  /** `held` counts the slots of the plan taken so far. `batches` is how many more connections a
      bulk write will take one after the other; `retries` how often it may start again. */
  datatype Task = Task(plan: seq<Tier>, held: nat, phase: Phase, batches: nat, retries: nat)

  datatype State = State(free: map<Tier, nat>, tasks: seq<Task>)

  datatype Action =
    | Acquire(i: nat) | TimeOut(i: nat) | NextBatch(i: nat) | SkipBatch(i: nat) | Finish(i: nat)
    | Release(i: nat) | Retry(i: nat) | Done(i: nat)
    | Spawn(kind: Kind, batches: nat, retries: nat)

  /** The effect of one step on its task, when the task alone allows it. */
  function StepTask(t: Task, a: Action): Option<Task> {
    match a
    case Acquire(_) =>
      if t.phase == Acquiring && t.held < |t.plan|
      then Some(t.(held := t.held + 1, phase := if t.held + 1 == |t.plan| then Running else Acquiring))
      else None
    case TimeOut(_) => if t.phase == Acquiring then Some(t.(phase := Releasing)) else None
    case NextBatch(_) =>
      if t.phase == Running && t.batches > 0 && t.held > 0
      then Some(t.(held := t.held - 1, phase := Acquiring, batches := t.batches - 1)) else None
    case SkipBatch(_) =>                     // no connection in time: best effort drops the batch and goes on
      if t.phase == Acquiring && t.batches > 0 && t.held + 1 == |t.plan|
      then Some(t.(batches := t.batches - 1)) else None
    case Finish(_) => if t.phase == Running then Some(t.(phase := Releasing)) else None
    case Release(_) => if t.phase == Releasing && t.held > 0 then Some(t.(held := t.held - 1)) else None
    case Retry(_) =>
      if t.phase == Releasing && t.held == 0 && t.retries > 0
      then Some(t.(phase := Acquiring, retries := t.retries - 1)) else None
    case Done(_) => if t.phase == Releasing && t.held == 0 then Some(t.(phase := Finished)) else None
    case Spawn(_, _, _) => None
  }

  /** The effect of the step on the free slots; None when the step has to wait. */
  function StepFree(free: map<Tier, nat>, t: Task, a: Action): Option<map<Tier, nat>> {
    match a
    case Acquire(_) =>
      if t.held < |t.plan| && Free(free, t.plan[t.held]) then Some(Taken(free, t.plan[t.held])) else None
    case NextBatch(_) => if 0 < t.held <= |t.plan| then Some(Returned(free, t.plan[t.held - 1])) else None
    case Release(_) => if 0 < t.held <= |t.plan| then Some(Returned(free, t.plan[t.held - 1])) else None
    case _ => Some(free)
  }

  function Next(s: State, a: Action): Option<State> {
    if a.Spawn? then Some(s.(tasks := s.tasks + [Task(PlanOf(a.kind), 0, Acquiring, a.batches, a.retries)]))
    else if a.i >= |s.tasks| then None
    else
      var t := s.tasks[a.i];
      match (StepTask(t, a), StepFree(s.free, t, a))
      case (Some(t'), Some(free)) => Some(State(free, s.tasks[a.i := t']))
      case (_, _) => None
  }

  predicate WellFormed(t: Task) {
    && t.plan != [] && Ascending(t.plan) && t.held <= |t.plan|
    && (t.phase == Acquiring ==> t.held < |t.plan|)
    && (t.phase == Running ==> t.held == |t.plan|)
    && (t.phase == Finished ==> t.held == 0)
  }

  predicate Holds(t: Task, tier: Tier)
    requires t.held <= |t.plan|
  {
    tier in t.plan[..t.held]
  }

  predicate AllWellFormed(tasks: seq<Task>) {
    forall i :: 0 <= i < |tasks| ==> WellFormed(tasks[i])
  }

  function Holders(tasks: seq<Task>, tier: Tier): nat
    requires AllWellFormed(tasks)
  {
    if tasks == [] then 0
    else (if Holds(tasks[0], tier) then 1 else 0) + Holders(tasks[1..], tier)
  }

  /** In every bounded tier the free slots and the holders add up to the cap. */
  ghost predicate Inv(caps: map<Tier, nat>, s: State) {
    && AllWellFormed(s.tasks)
    && s.free.Keys == caps.Keys
    && forall tier :: tier in caps ==> s.free[tier] + Holders(s.tasks, tier) == caps[tier]
  }

  // ---- counting holders --------------------------------------------------------------

  lemma {:induction false} HoldersUpdate(tasks: seq<Task>, i: nat, t: Task, tier: Tier)
    requires AllWellFormed(tasks) && i < |tasks| && WellFormed(t)
    ensures AllWellFormed(tasks[i := t])
    ensures Holders(tasks[i := t], tier) + (if Holds(tasks[i], tier) then 1 else 0)
            == Holders(tasks, tier) + (if Holds(t, tier) then 1 else 0)
  {
    if i == 0 {
      assert tasks[i := t][1..] == tasks[1..];
    } else {
      assert tasks[i := t][1..] == tasks[1..][i - 1 := t];
      HoldersUpdate(tasks[1..], i - 1, t, tier);
    }
  }

  lemma {:induction false} HoldersAppend(tasks: seq<Task>, t: Task, tier: Tier)
    requires AllWellFormed(tasks) && WellFormed(t)
    ensures AllWellFormed(tasks + [t])
    ensures Holders(tasks + [t], tier) == Holders(tasks, tier) + (if Holds(t, tier) then 1 else 0)
  {
    if tasks != [] {
      assert (tasks + [t])[1..] == tasks[1..] + [t];
      HoldersAppend(tasks[1..], t, tier);
    }
  }

  lemma {:induction false} NoHolders(tasks: seq<Task>, tier: Tier)
    requires AllWellFormed(tasks) && forall i :: 0 <= i < |tasks| ==> !Holds(tasks[i], tier)
    ensures Holders(tasks, tier) == 0
  {
    if tasks != [] {
      NoHolders(tasks[1..], tier);
    }
  }

  /** A plan names no tier twice, so one more slot means one more tier. */
  lemma HoldsNext(t: Task, tier: Tier)
    requires Ascending(t.plan) && t.held < |t.plan|
    ensures Holds(t.(held := t.held + 1), tier) <==> Holds(t, tier) || tier == t.plan[t.held]
    ensures !Holds(t, t.plan[t.held])
  {
    assert t.plan[..t.held + 1] == t.plan[..t.held] + [t.plan[t.held]];
  }

  // ---- safety ------------------------------------------------------------------------

  /** One more slot of the plan, and one free slot less. */
  lemma TakingBalances(free: map<Tier, nat>, t: Task, tier: Tier)
    requires Ascending(t.plan) && t.held < |t.plan| && tier in free && Free(free, t.plan[t.held])
    ensures var free' := Taken(free, t.plan[t.held]);
            tier in free' && free'.Keys == free.Keys
            && free'[tier] + (if Holds(t.(held := t.held + 1), tier) then 1 else 0)
               == free[tier] + (if Holds(t, tier) then 1 else 0)
  {
    HoldsNext(t, tier);
    HoldsNext(t, t.plan[t.held]);
  }

  /** One slot of the plan less, and one more free slot. */
  lemma ReturningBalances(free: map<Tier, nat>, t: Task, tier: Tier)
    requires Ascending(t.plan) && 0 < t.held <= |t.plan| && tier in free
    ensures var free' := Returned(free, t.plan[t.held - 1]);
            tier in free' && free'.Keys == free.Keys
            && free'[tier] + (if Holds(t.(held := t.held - 1), tier) then 1 else 0)
               == free[tier] + (if Holds(t, tier) then 1 else 0)
  {
    var t' := t.(held := t.held - 1);
    HoldsNext(t', tier);
    HoldsNext(t', t.plan[t'.held]);
  }

  /** In each tier, a step frees exactly the slots its task gives up. */
  lemma StepBalances(free: map<Tier, nat>, t: Task, a: Action, tier: Tier)
    requires WellFormed(t) && StepTask(t, a).Some? && StepFree(free, t, a).Some? && tier in free
    ensures var t', free' := StepTask(t, a).value, StepFree(free, t, a).value;
            && WellFormed(t') && free'.Keys == free.Keys
            && free'[tier] + (if Holds(t', tier) then 1 else 0) == free[tier] + (if Holds(t, tier) then 1 else 0)
  {
    var t' := StepTask(t, a).value;
    if a.Acquire? {
      TakingBalances(free, t, tier);
      assert Holds(t', tier) == Holds(t.(held := t.held + 1), tier);
    } else if a.NextBatch? || a.Release? {
      ReturningBalances(free, t, tier);
      assert Holds(t', tier) == Holds(t.(held := t.held - 1), tier);
    }
  }

  lemma SpawnKeepsInv(caps: map<Tier, nat>, s: State, a: Action)
    requires Inv(caps, s) && a.Spawn?
    ensures Inv(caps, Next(s, a).value)
  {
    var t := Task(PlanOf(a.kind), 0, Acquiring, a.batches, a.retries);
    assert AllWellFormed(s.tasks + [t]);
    forall tier | tier in caps ensures s.free[tier] + Holders(s.tasks + [t], tier) == caps[tier] {
      HoldersAppend(s.tasks, t, tier);
    }
  }

  lemma StepKeepsInv(caps: map<Tier, nat>, s: State, a: Action)
    requires Inv(caps, s) && Next(s, a).Some?
    ensures Inv(caps, Next(s, a).value)
  {
    if a.Spawn? {
      SpawnKeepsInv(caps, s, a);
    } else {
      var t := s.tasks[a.i];
      var t', free' := StepTask(t, a).value, StepFree(s.free, t, a).value;
      assert WellFormed(t) && WellFormed(t');
      assert AllWellFormed(s.tasks[a.i := t']);
      forall tier | tier in caps ensures free'[tier] + Holders(s.tasks[a.i := t'], tier) == caps[tier] {
        StepBalances(s.free, t, a, tier);
        HoldersUpdate(s.tasks, a.i, t', tier);
      }
    }
  }

  function Exec(s: State, actions: seq<Action>): Option<State>
    decreases |actions|
  {
    if actions == [] then Some(s)
    else match Next(s, actions[0])
         case Some(s') => Exec(s', actions[1..])
         case None => None
  }

  function Initial(caps: map<Tier, nat>): State {
    State(caps, [])
  }

  /** Every reachable state is capped: no tier ever has more holders than its limit. */
  lemma {:induction false} RunKeepsInv(caps: map<Tier, nat>, s: State, actions: seq<Action>)
    requires Inv(caps, s) && Exec(s, actions).Some?
    ensures Inv(caps, Exec(s, actions).value)
    decreases |actions|
  {
    if actions != [] {
      StepKeepsInv(caps, s, actions[0]);
      RunKeepsInv(caps, Next(s, actions[0]).value, actions[1..]);
    }
  }

  lemma CapsHoldInEveryRun(caps: map<Tier, nat>, actions: seq<Action>, tier: Tier)
    requires Exec(Initial(caps), actions).Some? && tier in caps
    ensures var s := Exec(Initial(caps), actions).value;
            AllWellFormed(s.tasks) && tier in s.free
            && s.free[tier] + Holders(s.tasks, tier) == caps[tier]
  {
    RunKeepsInv(caps, Initial(caps), actions);
  }

  // ---- what is limited ---------------------------------------------------------------

  /** The operations that a tier is there to limit. */
  predicate Limits(tier: Tier, kind: Kind) {
    match tier
    case Database => kind.Statement? || kind == BulkWrite
    case Reads => kind.Statement? && !kind.isWrite
    case Writes => kind.Statement? && kind.isWrite
    case Bulk => kind == BulkWrite
    case Expensive => kind.Statement? && kind.expensive
    case Pool => true
  }

  /** An operation takes a slot of exactly the tiers that are there to limit it. */
  lemma PlanTakesExactly(kind: Kind, tier: Tier)
    ensures tier in PlanOf(kind) <==> Limits(tier, kind)
  {}

  function StartedBy(a: Action): seq<Kind> {
    if a.Spawn? then [a.kind] else []
  }

  /** The operations started in a run, in order. */
  function Started(actions: seq<Action>): seq<Kind> {
    if actions == [] then [] else StartedBy(actions[0]) + Started(actions[1..])
  }

  predicate PlannedAs(tasks: seq<Task>, kinds: seq<Kind>) {
    |tasks| == |kinds| && forall i :: 0 <= i < |tasks| ==> tasks[i].plan == PlanOf(kinds[i])
  }

  lemma StepFollowsKinds(s: State, a: Action, kinds: seq<Kind>)
    requires Next(s, a).Some? && PlannedAs(s.tasks, kinds)
    ensures PlannedAs(Next(s, a).value.tasks, kinds + StartedBy(a))
  {
    if !a.Spawn? {
      assert kinds + StartedBy(a) == kinds;
      assert StepTask(s.tasks[a.i], a).value.plan == s.tasks[a.i].plan;
    }
  }

  lemma {:induction false} TasksFollowKinds(s: State, actions: seq<Action>, kinds: seq<Kind>)
    requires Exec(s, actions).Some? && PlannedAs(s.tasks, kinds)
    ensures PlannedAs(Exec(s, actions).value.tasks, kinds + Started(actions))
    decreases |actions|
  {
    if actions == [] {
      assert kinds + [] == kinds;
    } else {
      StepFollowsKinds(s, actions[0], kinds);
      TasksFollowKinds(Next(s, actions[0]).value, actions[1..], kinds + StartedBy(actions[0]));
      NextStarted(kinds, actions);
    }
  }

  lemma NextStarted(kinds: seq<Kind>, actions: seq<Action>)
    requires actions != []
    ensures kinds + Started(actions) == kinds + StartedBy(actions[0]) + Started(actions[1..])
  {}

  /** How many operations that the tier limits are running. */
  function RunningIn(tasks: seq<Task>, kinds: seq<Kind>, tier: Tier): nat
    requires |tasks| == |kinds|
  {
    if tasks == [] then 0
    else (if tasks[0].phase == Running && Limits(tier, kinds[0]) then 1 else 0)
         + RunningIn(tasks[1..], kinds[1..], tier)
  }

  lemma {:induction false} RunningHold(tasks: seq<Task>, kinds: seq<Kind>, tier: Tier)
    requires AllWellFormed(tasks) && PlannedAs(tasks, kinds)
    ensures RunningIn(tasks, kinds, tier) <= Holders(tasks, tier)
  {
    if tasks != [] {
      RunningHold(tasks[1..], kinds[1..], tier);
      PlanTakesExactly(kinds[0], tier);
      assert tasks[0].plan[..|tasks[0].plan|] == tasks[0].plan;
    }
  }

  lemma AsManyAsStarted(caps: map<Tier, nat>, actions: seq<Action>)
    requires Exec(Initial(caps), actions).Some?
    ensures PlannedAs(Exec(Initial(caps), actions).value.tasks, Started(actions))
  {
    var none: seq<Kind> := [];
    TasksFollowKinds(Initial(caps), actions, none);
    assert none + Started(actions) == Started(actions);
  }

  /** In every run no more operations of a kind run at a time than the tier that limits it allows. */
  lemma RunningWithinLimits(caps: map<Tier, nat>, actions: seq<Action>, tier: Tier)
    requires Exec(Initial(caps), actions).Some? && tier in caps
    ensures var s := Exec(Initial(caps), actions).value;
            |s.tasks| == |Started(actions)| && RunningIn(s.tasks, Started(actions), tier) <= caps[tier]
  {
    CapsHoldInEveryRun(caps, actions, tier);
    AsManyAsStarted(caps, actions);
    RunningHold(Exec(Initial(caps), actions).value.tasks, Started(actions), tier);
  }

  // ---- no deadlock -------------------------------------------------------------------

  /** A step that needs neither luck nor a newcomer: not a timeout, not a spawn. */
  predicate Progress(s: State, a: Action) {
    !a.TimeOut? && !a.SkipBatch? && !a.Spawn? && Next(s, a).Some?
  }

  /** What the task waits for, as a rank; a task that does not wait ranks highest. */
  function WantRank(t: Task): nat {
    if t.phase == Acquiring && t.held < |t.plan| then Rank(t.plan[t.held]) else 4
  }

  lemma {:induction false} MostAdvanced(tasks: seq<Task>, i: nat) returns (j: nat)
    requires i < |tasks| && tasks[i].phase != Finished
    ensures j < |tasks| && tasks[j].phase != Finished
    ensures forall k :: 0 <= k < |tasks| && tasks[k].phase != Finished ==> WantRank(tasks[k]) <= WantRank(tasks[j])
  {
    j := i;
    var n := 0;
    while n < |tasks|
      invariant n <= |tasks| && j < |tasks| && tasks[j].phase != Finished
      invariant forall k :: 0 <= k < n && tasks[k].phase != Finished ==> WantRank(tasks[k]) <= WantRank(tasks[j])
    {
      if tasks[n].phase != Finished && WantRank(tasks[n]) > WantRank(tasks[j]) {
        j := n;
      }
      n := n + 1;
    }
  }

  /** Whoever holds a slot waits for a higher tier, or not at all. */
  lemma HolderWantsMore(t: Task, tier: Tier)
    ensures WellFormed(t) && Holds(t, tier) ==> t.phase != Finished && Rank(tier) < WantRank(t)
  {}

  /** Main result. No reachable state with an unfinished task is stuck, whatever the caps. */
  lemma NeverStuck(caps: map<Tier, nat>, s: State, i: nat) returns (a: Action)
    requires Inv(caps, s) && i < |s.tasks| && s.tasks[i].phase != Finished
    requires forall tier :: tier in caps ==> caps[tier] > 0
    ensures Progress(s, a)
  {
    var j := MostAdvanced(s.tasks, i);
    var t := s.tasks[j];
    assert WellFormed(t);
    if t.phase == Running {
      a := Finish(j);
    } else if t.phase == Releasing {
      a := if t.held > 0 then Release(j) else Done(j);
    } else {
      a := Acquire(j);
      var tier := t.plan[t.held];
      forall h | 0 <= h < |s.tasks| ensures !Free(s.free, tier) ==> !Holds(s.tasks[h], tier) {
        HolderWantsMore(s.tasks[h], tier);
      }
      if !Free(s.free, tier) {
        NoHolders(s.tasks, tier);
        assert false;
      }
    }
  }

  /** The same for the limiter as configured: whatever the limits, and from any number of tasks in
      any order, every reachable state with an unfinished task can go on. */
  lemma ConfiguredLimiterNeverStuck(limits: map<Tier, Option<int>>, actions: seq<Action>, i: nat)
      returns (a: Action)
    requires Exec(Initial(CapsOf(limits)), actions).Some?
    requires var s := Exec(Initial(CapsOf(limits)), actions).value;
             i < |s.tasks| && s.tasks[i].phase != Finished
    ensures Progress(Exec(Initial(CapsOf(limits)), actions).value, a)
  {
    var caps := CapsOf(limits);
    RunKeepsInv(caps, Initial(caps), actions);
    a := NeverStuck(caps, Exec(Initial(caps), actions).value, i);
  }

  // ---- every run ends, with every slot back --------------------------------------------

  /** Steps one more attempt may need. */
  function AttemptCost(t: Task): nat {
    2 * |t.plan| + 3 * t.batches + 10
  }

  function PhaseCost(t: Task): nat
    requires WellFormed(t)
  {
    match t.phase
    case Acquiring => 2 * |t.plan| - t.held + 3 * t.batches + 2
    case Running => |t.plan| + 3 * t.batches + 2
    case Releasing => t.held + 1
    case Finished => 0
  }

  function Cost(t: Task): nat
    requires WellFormed(t)
  {
    t.retries * AttemptCost(t) + PhaseCost(t)
  }

  function TotalCost(tasks: seq<Task>): nat
    requires AllWellFormed(tasks)
  {
    if tasks == [] then 0 else Cost(tasks[0]) + TotalCost(tasks[1..])
  }

  lemma {:induction false} TotalCostUpdate(tasks: seq<Task>, i: nat, t: Task)
    requires AllWellFormed(tasks) && i < |tasks| && WellFormed(t)
    ensures AllWellFormed(tasks[i := t])
    ensures TotalCost(tasks[i := t]) + Cost(tasks[i]) == TotalCost(tasks) + Cost(t)
  {
    if i == 0 {
      assert tasks[i := t][1..] == tasks[1..];
    } else {
      assert tasks[i := t][1..] == tasks[1..][i - 1 := t];
      TotalCostUpdate(tasks[1..], i - 1, t);
    }
  }

  lemma TaskStepCosts(t: Task, a: Action)
    requires WellFormed(t) && StepTask(t, a).Some?
    ensures WellFormed(StepTask(t, a).value) && Cost(StepTask(t, a).value) < Cost(t)
  {
    var t' := StepTask(t, a).value;
    match a {
      case NextBatch(_) =>
        assert t.retries * AttemptCost(t) == t.retries * AttemptCost(t') + t.retries * 3;
      case SkipBatch(_) =>
        assert t.retries * AttemptCost(t) == t.retries * AttemptCost(t') + t.retries * 3;
      case Retry(_) =>
        assert t.retries * AttemptCost(t) == t'.retries * AttemptCost(t) + AttemptCost(t);
      case Spawn(_, _, _) =>
      case _ =>
        assert t'.retries * AttemptCost(t') == t.retries * AttemptCost(t);
    }
  }

  predicate NoSpawns(actions: seq<Action>) {
    forall k :: 0 <= k < |actions| ==> !actions[k].Spawn?
  }

  /** Once no new operation starts, no run is longer than the work that is left. */
  lemma {:induction false} RunsEnd(caps: map<Tier, nat>, s: State, actions: seq<Action>)
    requires Inv(caps, s) && NoSpawns(actions) && Exec(s, actions).Some?
    ensures AllWellFormed(Exec(s, actions).value.tasks)
    ensures |actions| + TotalCost(Exec(s, actions).value.tasks) <= TotalCost(s.tasks)
    decreases |actions|
  {
    RunKeepsInv(caps, s, actions);
    if actions != [] {
      var a := actions[0];
      var s' := Next(s, a).value;
      StepKeepsInv(caps, s, a);
      TaskStepCosts(s.tasks[a.i], a);
      TotalCostUpdate(s.tasks, a.i, s'.tasks[a.i]);
      RunsEnd(caps, s', actions[1..]);
    }
  }

  /** A run that cannot go on has finished every task and has every slot back. */
  lemma QuietMeansFree(caps: map<Tier, nat>, s: State)
    requires Inv(caps, s) && (forall tier :: tier in caps ==> caps[tier] > 0)
    requires forall a :: !Progress(s, a)
    ensures forall i :: 0 <= i < |s.tasks| ==> s.tasks[i].phase == Finished
    ensures s.free == caps
  {
    forall i | 0 <= i < |s.tasks| ensures s.tasks[i].phase == Finished {
      if s.tasks[i].phase != Finished {
        var a := NeverStuck(caps, s, i);
      }
    }
    forall tier | tier in caps ensures s.free[tier] == caps[tier] {
      forall h | 0 <= h < |s.tasks| ensures !Holds(s.tasks[h], tier) {
        HolderWantsMore(s.tasks[h], tier);
      }
      NoHolders(s.tasks, tier);
    }
  }

  // ---- a timeout gives back what was taken -----------------------------------------------

  /** Leaving the exit stack: one slot after the other, last taken first. */
  function Unwind(i: nat, held: nat): seq<Action> {
    if held == 0 then [Done(i)] else [Release(i)] + Unwind(i, held - 1)
  }

  function WithSlots(free: map<Tier, nat>, slots: seq<Tier>): map<Tier, nat> {
    map t | t in free :: free[t] + (if t in slots then 1 else 0)
  }

  lemma OneSlotBack(free: map<Tier, nat>, t: Task)
    requires WellFormed(t) && 0 < t.held
    ensures WithSlots(Returned(free, t.plan[t.held - 1]), t.plan[..t.held - 1])
            == WithSlots(free, t.plan[..t.held])
  {
    var t' := t.(held := t.held - 1);
    forall tier ensures Holds(t, tier) <==> Holds(t', tier) || tier == t.plan[t.held - 1] {
      HoldsNext(t', tier);
    }
    HoldsNext(t', t.plan[t.held - 1]);
  }

  lemma {:induction false} UnwindReturns(free: map<Tier, nat>, tasks: seq<Task>, i: nat, t: Task)
    requires i < |tasks| && WellFormed(t) && t.phase == Releasing
    ensures Exec(State(free, tasks[i := t]), Unwind(i, t.held))
            == Some(State(WithSlots(free, t.plan[..t.held]),
                          tasks[i := t.(held := 0, phase := Finished)]))
    decreases t.held
  {
    var s := State(free, tasks[i := t]);
    if t.held == 0 {
      var ended := t.(phase := Finished);
      assert tasks[i := t][i := ended] == tasks[i := ended];
      assert WithSlots(free, t.plan[..0]) == free;
      assert Unwind(i, 0)[1..] == [];
      assert Next(s, Done(i)) == Some(State(free, tasks[i := ended]));
    } else {
      var t' := t.(held := t.held - 1);
      var free' := Returned(free, t.plan[t.held - 1]);
      assert tasks[i := t][i := t'] == tasks[i := t'];
      assert Next(s, Release(i)) == Some(State(free', tasks[i := t']));
      assert Unwind(i, t.held)[1..] == Unwind(i, t.held - 1);
      UnwindReturns(free', tasks, i, t');
      OneSlotBack(free, t);
    }
  }

  /** A wait that times out at any stage returns exactly the slots taken before it. */
  lemma TimeoutReturnsSlots(s: State, i: nat)
    requires AllWellFormed(s.tasks) && i < |s.tasks| && s.tasks[i].phase == Acquiring
    ensures var t := s.tasks[i];
            Exec(s, [TimeOut(i)] + Unwind(i, t.held))
            == Some(State(WithSlots(s.free, t.plan[..t.held]),
                          s.tasks[i := t.(held := 0, phase := Finished)]))
  {
    var t := s.tasks[i];
    var leaving := t.(phase := Releasing);
    assert WellFormed(t);
    assert Next(s, TimeOut(i)) == Some(State(s.free, s.tasks[i := leaving]));
    assert ([TimeOut(i)] + Unwind(i, t.held))[1..] == Unwind(i, t.held);
    UnwindReturns(s.free, s.tasks, i, leaving);
  }

  // ---- the limiter as the program holds it -------------------------------------------------

  /** The semaphores, and how many slots of each are taken. */
  class ConcurrencyLimiter {
    ghost const caps: map<Tier, nat>
    var sems: map<Tier, nat>
    ghost var held: map<Tier, nat>

    /** In every tier the free and the taken slots add up to the configured limit. */
    ghost predicate Valid()
      reads this
    {
      sems.Keys == caps.Keys && held.Keys == caps.Keys && forall t :: t in caps ==> sems[t] + held[t] == caps[t]
    }

    constructor (limits: map<Tier, Option<int>>)
      ensures Valid() && caps == CapsOf(limits) && forall t :: t in caps ==> held[t] == 0
      ensures forall t :: t in caps <==> t in limits && limits[t].Some? && limits[t].value > 0
      ensures forall t :: t in caps ==> limits[t] == Some(caps[t] as int)
    {
      var configured := map t | t in limits && limits[t].Some? && limits[t].value > 0 :: limits[t].value as nat;
      caps, sems := configured, configured;
      held := map t | t in configured :: 0;
    }

    /** Entering `acquire`: a slot at once, or false when the caller has to wait. It is the step that
        the task waiting for this tier takes in the system of all tasks. */
    method TryEnter(t: Tier, ghost task: Task) returns (entered: bool)
      requires Valid() && task.phase == Acquiring && task.held < |task.plan| && task.plan[task.held] == t
      modifies this
      ensures Valid() && entered == (t !in caps || old(held)[t] < caps[t])
      ensures held == if entered && t in caps then old(held)[t := old(held)[t] + 1] else old(held)
      ensures StepFree(old(sems), task, Acquire(0)) == if entered then Some(sems) else None
      ensures !entered ==> sems == old(sems)
    {
      if t !in sems {
        return true;
      }
      entered := sems[t] > 0;
      if entered {
        sems, held := sems[t := sems[t] - 1], held[t := held[t] + 1];
      }
    }

    /** Leaving the block gives back a slot that is taken: the task's release step. */
    method Leave(t: Tier, ghost task: Task)
      requires Valid() && 0 < task.held <= |task.plan| && task.plan[task.held - 1] == t
      requires t in caps ==> held[t] > 0
      modifies this
      ensures Valid() && held == if t in caps then old(held)[t := old(held)[t] - 1] else old(held)
      ensures StepFree(old(sems), task, Release(0)) == Some(sems)
    {
      if t in sems {
        sems, held := sems[t := sems[t] + 1], held[t := held[t] - 1];
      }
    }
  }

  lemma OneMoreHeld(held: map<Tier, nat>, t: Task)
    requires Ascending(t.plan) && t.held < |t.plan|
    ensures t.plan[t.held] in held ==>
              WithSlots(held, t.plan[..t.held])[t.plan[t.held] := held[t.plan[t.held]] + 1]
              == WithSlots(held, t.plan[..t.held + 1])
              && WithSlots(held, t.plan[..t.held])[t.plan[t.held]] == held[t.plan[t.held]]
    ensures t.plan[t.held] !in held ==>
              WithSlots(held, t.plan[..t.held + 1]) == WithSlots(held, t.plan[..t.held])
  {
    forall tier
      ensures Holds(t.(held := t.held + 1), tier) <==> Holds(t, tier) || tier == t.plan[t.held]
    {
      HoldsNext(t, tier);
    }
    HoldsNext(t, t.plan[t.held]);
  }

  /** The limiter has taken the first `n` tiers of the plan, and had taken `before` by then. */
  ghost predicate HoldsFirst(limiter: ConcurrencyLimiter, before: map<Tier, nat>, plan: seq<Tier>, n: int)
    requires Ascending(plan) && 0 <= n <= |plan|
    reads limiter
  {
    limiter.Valid() && limiter.held == WithSlots(before, plan[..n])
  }

  predicate HasRoom(caps: map<Tier, nat>, held: map<Tier, nat>, t: Tier)
    requires held.Keys == caps.Keys
  {
    t !in caps || held[t] < caps[t]
  }

  lemma HoldsNone(limiter: ConcurrencyLimiter, before: map<Tier, nat>, plan: seq<Tier>)
    requires Ascending(plan) && limiter.Valid() && before.Keys == limiter.caps.Keys
    ensures HoldsFirst(limiter, before, plan, 0) <==> limiter.held == before
  {
    assert plan[..0] == [] && WithSlots(before, plan[..0]) == before;
  }

  method EnterNext(limiter: ConcurrencyLimiter, plan: seq<Tier>, n: nat, ghost before: map<Tier, nat>)
      returns (entered: bool)
    requires Ascending(plan) && n < |plan| && before.Keys == limiter.caps.Keys && HoldsFirst(limiter, before, plan, n)
    modifies limiter
    ensures entered == HasRoom(limiter.caps, before, plan[n])
    ensures HoldsFirst(limiter, before, plan, if entered then n + 1 else n)
  {
    ghost var task := Task(plan, n, Acquiring, 0, 0);
    OneMoreHeld(before, task);
    entered := limiter.TryEnter(plan[n], task);
  }

  method LeaveLast(limiter: ConcurrencyLimiter, plan: seq<Tier>, n: nat, ghost before: map<Tier, nat>)
    requires Ascending(plan) && n < |plan| && before.Keys == limiter.caps.Keys
    requires HoldsFirst(limiter, before, plan, n + 1)
    modifies limiter
    ensures HoldsFirst(limiter, before, plan, n)
  {
    ghost var task := Task(plan, n, Acquiring, 0, 0);
    OneMoreHeld(before, task);
    limiter.Leave(plan[n], task.(held := n + 1, phase := Releasing));
    assert limiter.held == WithSlots(before, plan[..n]);
  }

  /** Entering the tiers in order, up to the first that is taken; `n` of them are held then. */
  method EnterAll(limiter: ConcurrencyLimiter, plan: seq<Tier>) returns (n: nat)
    requires limiter.Valid() && Ascending(plan)
    modifies limiter
    ensures n <= |plan| && HoldsFirst(limiter, old(limiter.held), plan, n)
    ensures forall j :: 0 <= j < n ==> HasRoom(limiter.caps, old(limiter.held), plan[j])
    ensures n < |plan| ==> !HasRoom(limiter.caps, old(limiter.held), plan[n])
  {
    ghost var before := limiter.held;
    n := 0;
    HoldsNone(limiter, before, plan);
    while n < |plan|
      invariant n <= |plan| && HoldsFirst(limiter, before, plan, n)
      invariant forall j :: 0 <= j < n ==> HasRoom(limiter.caps, before, plan[j])
    {
      var entered := EnterNext(limiter, plan, n, before);
      if !entered {
        return;
      }
      n := n + 1;
    }
  }

  /** Leaving what was entered, last first. */
  method LeaveAll(limiter: ConcurrencyLimiter, plan: seq<Tier>, n: nat, ghost before: map<Tier, nat>)
    requires Ascending(plan) && n <= |plan| && HoldsFirst(limiter, before, plan, n)
    requires before.Keys == limiter.caps.Keys
    modifies limiter
    ensures limiter.Valid() && limiter.held == before
  {
    var i := n;
    while i > 0
      invariant 0 <= i <= |plan| && HoldsFirst(limiter, before, plan, i)
    {
      i := i - 1;
      LeaveLast(limiter, plan, i, before);
    }
    HoldsNone(limiter, before, plan);
  }

  /** One attempt of an operation by itself: enter the tiers in order, give up at the first that is
      taken, and leave whatever was entered. */
  method Attempt(limiter: ConcurrencyLimiter, plan: seq<Tier>) returns (ran: bool)
    requires limiter.Valid() && Ascending(plan)
    modifies limiter
    ensures limiter.Valid() && limiter.held == old(limiter.held)
    ensures ran <==> forall t :: t in plan && t in limiter.caps ==> old(limiter.held)[t] < limiter.caps[t]
  {
    ghost var before := limiter.held;
    var n := EnterAll(limiter, plan);
    ran := n == |plan|;
    assert !ran ==> plan[n] in plan;
    LeaveAll(limiter, plan, n, before);
  }
}
