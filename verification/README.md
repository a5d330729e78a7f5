# dbkit: the resilience kernel, verified

A Dafny model of the stateful core of dbkit, a database access layer for Python services: what its
retry loop, circuit breaker, limiters, registries, message outbox and inbox, bulk writes,
transactions and micro-batches do, and proofs of what they are for. The asynchronous sources are
modelled; the synchronous ones are generated from them.

`dafny verify dfyconfig.toml` checks everything.

## How it is organised

| file | what it models |
|---|---|
| Circuit.dfy | the circuit breaker: state machine, rolling window, bound on admitted calls |
| Policies.dfy, Retry.dfy | retry decisions, and the retry loop around an auto-commit scope |
| Limiter.dfy | tiered concurrency limits, with unboundedly many tasks |
| Keys.dfy | engine keys and their text |
| Recency.dfy, Lru.dfy | least-recently-used order, and caches that evict by time stamp |
| Config.dfy, Routing.dfy | pool capacities and budgets; replica rotation and hash sharding |
| Engine.dfy, EngineSteps.dfy | the engine registry, one call at a time and interleaved |
| ConfigSwap.dfy, EvictionWindow.dfy | what other tasks do to the registry while a registration waits, and to the names while an eviction waits |
| Executor.dfy, Database.dfy | limiter and breaker caches; dynamic registration and routing |
| Outbox.dfy, Inbox.dfy | the relay and the consumer protocol, each as a machine of steps |
| Delivery.dfy, Processes.dfy | both together, and `drain` and `ack_after_commit` as code among other processes |
| Bulk.dfy | batch sizing, the three failure modes, column arrays |
| Transaction.dfy | savepoint blocks and the transaction manager |
| Batch.dfy | the batch collector |

Objects whose methods change fields are classes, and each method's contract gives the new state.
Protocols are functions from a state and an action to the next state, and the results about them
hold for every sequence of actions. What the program cannot control is a parameter (how each step on
the server, the broker or a callback ends) or an arbitrary choice inside a method (clock, randomness,
other tasks).

## What the proofs brought to light

Each of these is stated by a member of the table below, most of them with the exact condition.

- A half-open breaker whose trials all end in errors that count neither as success nor as failure
  rejects every call from then on; nothing but feedback moves it.
- The bound on calls admitted by a breaker that is not closed needs a positive cooldown, which the
  configuration does not check; the rolling window needs a clock that does not go back.
- A refused COMMIT that took effect anyway and is reported as retryable is written twice, whenever
  the call may be attempted a second time at all. Statements that are not a `Query` count as reads
  there.
- If creating an engine fails after another was evicted for it, the evicted one is never disposed,
  and the registry stays smaller than its cap allows until the gap is filled.
- If one database's name followed by a colon begins another's, the two can share one engine text,
  and purging one reaches the breakers of the other. One is served the engine of the other exactly
  if, besides, two of their targets have keys that end alike after the shard.
- Re-registering a database disposes its engines before the map is swapped; an engine built in
  between stays in the registry with the old target, and is served from then on if the new target
  uses the same driver.
- Pools configured per target are not range-checked; a database with a negative capacity hides
  capacity from the budget.
- A `max_databases` of zero evicts the very name that is being registered.
- `ensure_database` for the victim of an eviction, at the moment its engines are being disposed, puts
  the victim back into the LRU though it is unregistered: it then takes a place, and one more
  database than necessary is evicted. With a positive cap this can happen in every eviction.
- Shard keys that compare equal but print differently (1, 1.0, True) share one cache entry, so the
  answer depends on which was asked first.
- `split_on_failure` inserts a batch again if its COMMIT failed after taking effect; that is
  harmless exactly on tables where repeating an inserted batch changes nothing.
- Written and dropped rows add up exactly when every batch statement reports its size, or nothing,
  and none fails in COMMIT, and neither does a row of a failed batch that is split: such a row counts
  as written and as dropped. `ON CONFLICT DO NOTHING` reports other counts; its total depends on the
  batch size, and a batch of nothing but conflicts counts as fully written.
- `best_effort` keeps other rows than one insert per row would, unless tables never both take a row
  that changes them and refuse another.
- The column arrays of the `unnest` strategy silently drop columns that the first row does not have.
- A transaction's connection is not given back if the metrics sink, the span or the log call raises
  when the outcome is recorded, because that comes before the release.
- A timer flush of the batch collector cancels its own task before it awaits the callback, so the
  callback is cancelled at its first suspension with the batch already out of the buffer.

## Model

| member | source | states |
|---|---|---|
| Circuit.BreakerProtectsBackend | src/dbkit/_core/circuit.py:73-130 | over any span in which the breaker is never CLOSED, however state, allow, success and failure calls interleave, it admits at most half_open_max_calls times (whole cooldowns in the span + 1) calls |
| Circuit.BoundIsAttained | src/dbkit/_core/circuit.py:82-93 | that bound is reached for every number of cooldowns, so it cannot be improved |
| Circuit.HalfOpenIsReachable | src/dbkit/_core/circuit.py:104-113 | the state the worst case starts from is reached from a new breaker by enough failures and one cooldown |
| Circuit.HealthyAdmitsAll | src/dbkit/_core/circuit.py:82-119 | a new breaker admits every call of any run that reports fewer failures than the threshold |
| Circuit.DeniedExactlyWhen | src/dbkit/_core/circuit.py:82-93 | over every run from any state an allow call is denied exactly when the breaker is then OPEN with less than the cooldown elapsed, or HALF_OPEN, already or by this call, with all trials used |
| Circuit.ClosedAdmitsAll | src/dbkit/_core/circuit.py:84-86 | a run that stays CLOSED admits exactly its allow calls |
| Circuit.NoCooldownAdmitsAnything | src/dbkit/_core/circuit.py:73-93 | with a cooldown of zero or less there is no bound: any number of trials, all at one instant |
| Circuit.CappedExactlyWhen | src/dbkit/_core/circuit.py:73-125 | for every configuration with a positive threshold: there is a bound on the calls admitted at one instant exactly when the cooldown is positive, no trials are allowed, or the window is negative and the breaker never opens |
| Circuit.NegativeWindowStaysClosed | src/dbkit/_core/circuit.py:104-119 | a negative window forgets every failure at once, and the breaker stays closed |
| Circuit.SpentTrialsRejectForever | src/dbkit/_core/circuit.py:82-95 | a half-open breaker whose trials are used up and that gets no feedback rejects every call for good |
| Circuit.OnlyFeedbackMoves | src/dbkit/_core/circuit.py:97-113 | a half-open breaker stays half-open over a run exactly when the run holds no success and no failure; the first of these always moves it |
| Circuit.WindowRefinesHistory | src/dbkit/_core/circuit.py:97-130 | with a clock that does not go back, the breaker that prunes a deque is in the same state, after every run, as one that remembers every failure and filters by the window |
| Circuit.FailureOpensExactlyAtThreshold | src/dbkit/_core/circuit.py:104-119 | outside HALF_OPEN a failure opens the breaker exactly when the failures since the last clear that lie in the window number at least the threshold; else the deque holds exactly those |
| Circuit.DequeStaysShort | src/dbkit/_core/circuit.py:104-119 | between calls the deque is sorted and shorter than the threshold |
| Circuit.ClockMustNotGoBack | src/dbkit/_core/circuit.py:116-119 | one clock reading that goes back makes pruning lose a failure the full history counts: the refinement fails without its hypothesis |
| Circuit.CircuitBreaker.State | src/dbkit/_core/circuit.py:73-78 | the object takes the modelled step and answers its new state; every call made on it is on record, so the results about runs hold of the object |
| Circuit.CircuitBreaker.Allow | src/dbkit/_core/circuit.py:82-93 | a CLOSED breaker lets the call through; an OPEN one rejects it until the cooldown has elapsed and then becomes HALF_OPEN; a HALF_OPEN one admits and counts it exactly while trials are left |
| Circuit.CircuitBreaker.OnSuccess | src/dbkit/_core/circuit.py:97-102 | a success closes from HALF_OPEN, prunes when CLOSED, and changes nothing when OPEN |
| Circuit.CircuitBreaker.OnFailure | src/dbkit/_core/circuit.py:104-113 | a failure re-opens from HALF_OPEN; otherwise it is recorded, the window pruned, and the threshold tested |
| Circuit.CircuitBreaker.Prune | src/dbkit/_core/circuit.py:116-119 | the loop pops exactly the front that is older than the window |
| Policies.BackoffIsCapped | src/dbkit/_core/policies.py:95-105 | with non-negative settings a back-off is never negative and never above the maximum, with or without jitter |
| Policies.BackoffGrows | src/dbkit/_core/policies.py:95-105 | without jitter the first delay is the initial one, each further one the one before times the multiplier, both cut at the maximum; with a multiplier of at least one delays never shrink |
| Policies.JitterOnlyShortens | src/dbkit/_core/policies.py:95-105 | full jitter multiplies the delay by the random draw, no jitter leaves it alone, and neither lengthens it |
| Retry.NeverCommitsTwice | src/dbkit/_async/resilience.py:65-110 | over every sequence of attempts the effect is committed at most once, exactly once on a normal return, and not at all when the call fails with a known outcome, provided a COMMIT that the server refuses with an error did not take effect; one lost with its connection may have |
| Retry.LostCommitIsLast | src/dbkit/_async/executor.py:283-298 | after a COMMIT lost with its connection nothing runs again, and the caller gets an error that is not retryable and says that the state is unknown |
| Retry.LastTryDecides | src/dbkit/_async/resilience.py:65-110 | unless the breaker denies it, the last attempt decides: a value exactly when its work and, for a committing call, its COMMIT went well, else the error of the work or of the COMMIT, or the exception |
| Retry.GoodTryReturns | src/dbkit/_async/resilience.py:105-110 | an attempt whose work and COMMIT go well is the last, and the call returns |
| Retry.RetriedOnlyWhenAllowed | src/dbkit/_core/policies.py:75-92 | another attempt only follows a retryable error with a known outcome while attempts are left, for reads if reads are retried and for writes if writes are and the operation is idempotent |
| Retry.AllowedIsGivenUpForTime | src/dbkit/_async/resilience.py:82-102 | an error for which the policy allows another attempt, whichever attempt it is, ends the call only if the longest back-off of that attempt would by then reach the deadline or use up the budget |
| Retry.UnknownCommitIsLast | src/dbkit/_core/policies.py:75-92 | after a commit whose outcome is unknown nothing runs again and the caller gets that error |
| Retry.DishonestCommitIsRepeated | src/dbkit/_async/executor.py:283-311 | for every call of which a second attempt is possible there is a record, of a server that commits and then reports a retryable error, that commits twice and returns normally |
| Retry.CommitsOnceExactlyWhen | src/dbkit/_async/resilience.py:65-110 | whatever the server does, a call commits at most once in every record exactly when it does not commit at all, has one attempt only, the gate of the policy is closed for it, or no first back-off is below maximum_total_ms; statements that are not a `Query` go through the gate for reads |
| Retry.AttemptsBounded | src/dbkit/_core/policies.py:75-80 | at most `attempts` operations run, and one if that number is not positive |
| Retry.UnsafeWriteRunsOnce | src/dbkit/_core/policies.py:84-92 | a write that is not idempotent, or whose retry is not enabled, runs at most once, and not at all when the breaker denies it |
| Retry.SleepsStayInBudget | src/dbkit/_async/resilience.py:99-104 | all back-off sleeps of a call together stay below maximum_total_ms |
| Retry.NoSleepReachesDeadline | src/dbkit/_async/resilience.py:96-98 | a sleep is only started if it ends before the deadline as of the clock reading of the guard; later readings are not bounded |
| Retry.SilentExactlyWhen | src/dbkit/_async/resilience.py:65-110 | a try reports a success exactly when it returns, a failure exactly when it ends in an error of the categories availability, connection, pool or timeout, and neither exactly when it ends in another error or another exception |
| Retry.AsksOnceAndFirst | src/dbkit/_async/resilience.py:65-110 | an attempt asks the breaker once, before anything else, and nothing it reports later uses up a trial |
| Retry.RunScope | src/dbkit/_async/executor.py:214-325 | for every way the work and the COMMIT may end: a COMMIT is sent exactly when the scope commits and the work went well; an error in the work is passed on; a COMMIT that succeeds takes effect and returns; one that loses its connection becomes an error that is not retryable with unknown state; any other failure its own error |
| Retry.RunWithRetries | src/dbkit/_async/resilience.py:43-110 | whatever clock, randomness, server and other tasks do: the loop's record obeys the three stop conditions, an error ends the call only when the policy forbids another attempt or the back-off does not fit deadline and budget, attempts meet what the server has in store for them one by one, its effects are the record's commits, the breaker saw exactly the record's calls and admitted each operation, and a denial ends the call |
| Retry.ExecuteWithResilience | src/dbkit/_async/executor.py:148-210 | seen by the caller: at most one committed effect, exactly one on a normal return, under the hypothesis on the server, and at most one under any server if no second attempt is possible; a lost COMMIT is the last attempt and reaches the caller as a non-retryable error with unknown state; without a breaker or with a closed one the operation runs, and if its work and COMMIT go well the call returns; at most `attempts` operations |
| Limiter.CapsHoldInEveryRun | src/dbkit/_async/resilience.py:113-148 | in every run, with any number of tasks, free slots plus holders equal the cap in every bounded tier |
| Limiter.PlanTakesExactly | src/dbkit/_async/executor.py:166-196 | an operation takes a slot of `database`, of reads, writes or bulk according to what it is, of `expensive` exactly if it is marked so, and a connection |
| Limiter.RunningWithinLimits | src/dbkit/_async/executor.py:166-196 | in every run no more operations run at a time than each tier that limits them allows |
| Limiter.NeverStuck | src/dbkit/_async/executor.py:177-200 | no reachable state with an unfinished task is stuck, for tasks that take `database`, then reads, writes or bulk, then `expensive`, then a connection |
| Limiter.ConfiguredLimiterNeverStuck | src/dbkit/_async/resilience.py:120-127 | the same for every limiter configuration, where missing and non-positive limits are unbounded |
| Limiter.RunsEnd | src/dbkit/_async/executor.py:170-200 | once no new operation starts, every run is at most as long as the work that is left |
| Limiter.QuietMeansFree | src/dbkit/_async/resilience.py:129-148 | when nothing can go on, every task has finished and every slot is back |
| Limiter.TimeoutReturnsSlots | src/dbkit/_async/resilience.py:137-148 | a wait that times out at any stage gives back exactly the slots taken before it |
| Limiter.ConcurrencyLimiter.TryEnter | src/dbkit/_async/resilience.py:129-144 | free and taken slots add up to the configured limit; an entry succeeds exactly when fewer than the limit are taken, or the tier is unbounded, and is the acquire step of the task system |
| Limiter.ConcurrencyLimiter.Leave | src/dbkit/_async/resilience.py:145-148 | leaving gives back one taken slot, is the release step of the task system, and keeps the sum |
| Limiter.Attempt | src/dbkit/_async/executor.py:177-200 | an attempt by itself runs exactly when every bounded tier of its plan has a slot, and leaves the limiter with the slots it found |
| Keys.KeyTextIsInjective | src/dbkit/_core/keys.py:12-24 | among names without colons, the text of an engine key determines environment, database, shard, role with replica name, and driver |
| Keys.PrefixSelectsDatabase | src/dbkit/_async/executor.py:144-146 | a key text starts with a database's prefix exactly for that environment and database |
| Keys.OwnPrefix | src/dbkit/_async/executor.py:144-146 | whatever the names, a key's text starts with the prefix of its own database |
| Keys.SharedTextExactlyWhen | src/dbkit/_core/keys.py:22-24 | two databases of one environment can share an engine text exactly when one name followed by a colon begins the other |
| Keys.PurgeReachesExactlyWhen | src/dbkit/_async/executor.py:144-146 | over all shards, the purge of one database drops breakers of another exactly when the names stand in that relation, and always its own |
| Recency.RecentIff | src/dbkit/_async/engine.py:195-202 | a key is among the n most recently used exactly when fewer than n other keys were used since its last use |
| Recency.RecentAfterUse | src/dbkit/_core/routing.py:117-127 | one more use moves a kept key last, or appends a new one and drops the oldest if there is no room |
| Lru.LiveKeysAreMostRecent | src/dbkit/_async/engine.py:143-202 | after any sequence of requests at rising times, answered or not, the live keys are the most recently answered distinct ones, as many as are live, and never more than the cap |
| Lru.LiveIff | src/dbkit/_async/engine.py:143-202 | an answered key is live exactly when fewer other keys were answered since than are live |
| Lru.MostRecentExactlyWhen | src/dbkit/_async/engine.py:151-202 | at every moment of a run the live keys are all of the most recently answered ones that the cap has room for, exactly when the cache never evicts for an entry that then cannot be built |
| Lru.LargerCapHoldsMore | src/dbkit/_async/engine.py:151-163 | for the same answers a larger cap holds a superset, provided it never evicts in vain |
| Engine.AsyncEngineRegistry.Get | src/dbkit/_async/engine.py:143-193 | the call does exactly one step of the specified registry: hit, build with eviction and disposal, limit reached, failed build or unknown route; a coherent registry stays coherent |
| Engine.GetKeepsCoherence | src/dbkit/_async/engine.py:143-193 | a step keeps every entry current and the cap, and what it answers is the engine the configuration asks for under the requested text |
| Engine.AnswerIsCurrent | src/dbkit/_async/engine.py:95-116 | if no name contains a colon, that engine was built for the requested key from the target configured now |
| Engine.FindReplica | src/dbkit/_async/engine.py:95-106 | the target found is configured under the requested name, and none is found exactly when no replica has it |
| Engine.AsyncEngineRegistry.PopLru | src/dbkit/_async/engine.py:195-202 | the popped entry has the oldest stamp |
| Engine.AsyncEngineRegistry.DisposeOne | src/dbkit/_async/engine.py:216-232 | drops and disposes exactly the named engine |
| Engine.AsyncEngineRegistry.DisposeDatabase | src/dbkit/_async/engine.py:234-247 | drops exactly one database's engines and disposes each of them once |
| Engine.AsyncEngineRegistry.DisposeAll | src/dbkit/_async/engine.py:208-214 | empties the table and disposes each engine once |
| Engine.CachedIsRequested | src/dbkit/_async/engine.py:95-116 | if no name contains a colon, what is cached under a requested text was built for that key from the target configured now |
| Engine.WrongEngineExactlyWhen | src/dbkit/_async/engine.py:108-116 | two requests for different databases can be answered with one engine exactly when one name followed by a colon begins the other and, for a configured target of each, one of the two keys ends like the other after its shard |
| Engine.WrongTargetServed | src/dbkit/_async/engine.py:143-153 | and the second database then gets the target of the first |
| Engine.GetIsLruStep | src/dbkit/_async/engine.py:143-202 | every get, whatever its outcome, is one request to the bounded LRU cache, or none if the target is unknown |
| Engine.RegistryHoldsMostRecent | src/dbkit/_async/engine.py:143-202 | after any gets at rising times, with a configuration that changes and builds that fail, the texts in the table are the most recently answered ones, as many as there are entries, within the cap; and all that the cap has room for, throughout, exactly when no get evicts for an engine that then cannot be built |
| ConfigSwap.RegistrationCoherentExactlyWhen | src/dbkit/_async/database.py:223-228 | purge, then any requests and drains of other tasks, then the swap: the registry is coherent exactly when no engine of the database that was built in between and is still live has a target the swap changes |
| ConfigSwap.NeverHarmfulExactlyWhen | src/dbkit/_async/database.py:223-228 | no interleaving can do harm exactly when no route of the database changes or loses its target, or the registry cannot build engines at all |
| ConfigSwap.HarmfulWindow | src/dbkit/_async/database.py:223-228 | otherwise one request for a changed route in the window leaves its engine behind |
| ConfigSwap.ServedExactlyWhenSameDriver | src/dbkit/_async/engine.py:143-153 | the next request for that route gets the engine with the old target exactly when both targets use the same driver |
| EngineSteps.EveryEngineIsSomewhere | src/dbkit/_async/engine.py:148-193 | with get and the dispose methods split at the lock, every engine ever built is in exactly one place: live, popped and waiting, lost, or disposed once; no two keys share one; the cap holds |
| EngineSteps.RunsConserve | src/dbkit/_async/engine.py:208-247 | the same from an empty registry, over every run |
| EngineSteps.NothingLostIfAllBuild | src/dbkit/_async/engine.py:183-192 | no engine is lost as long as every engine creation succeeds |
| EngineSteps.LosesExactlyWhen | src/dbkit/_async/engine.py:163-170 | a step loses an engine exactly when it evicts for an engine that then cannot be created |
| EngineSteps.FailedBuildLosesEngine | src/dbkit/_async/engine.py:163-170 | it happens: with room for one, a failed creation loses the live engine undisposed |
| EngineSteps.GetIsRun | src/dbkit/_async/engine.py:143-193 | a get of the registry object is a run of these steps: the locked part, then the disposal of what it evicted |
| Executor.ResilientExecutor.LimiterFor | src/dbkit/_async/executor.py:120-135 | one limiter per database, always built from its current limits |
| Executor.ResilientExecutor.BreakerFor | src/dbkit/_async/executor.py:103-118 | one breaker per engine key, none when disabled; new or cached, it is usable and has the configured settings; a new one is closed, and a cached one is the same object as before |
| Executor.ResilientExecutor.Execute | src/dbkit/_async/executor.py:148-210 | a call on a target with that target's breaker: at most one committed effect, exactly one on a normal return, under the hypothesis on the server, or under any server if no second attempt is possible; every cached breaker stays usable |
| Executor.ResilientExecutor.ForgetDatabase | src/dbkit/_async/executor.py:137-146 | drops the database's limiter and exactly the breakers whose text has its prefix |
| Executor.NoBreakerLeft | src/dbkit/_async/executor.py:144-146 | no breaker of the forgotten database is left behind, whatever its name |
| Executor.PurgeIsExact | src/dbkit/_async/executor.py:144-146 | among names without colons the purge drops exactly that database's breakers |
| Config.MaxConnectionsPerProcess | src/dbkit/_core/config.py:376-382 | the nested loops compute the capacity of the configuration map |
| Config.ConfiguredLimitsHold | src/dbkit/_async/executor.py:120-135 | in every run of operations on a database each limit that is set and positive bounds the running operations it is meant for: all, reads, writes, bulk writes, expensive ones |
| Config.CapacityWithout | src/dbkit/_core/config.py:376-382 | the total does not depend on the order in which databases are counted |
| Config.EveryTargetCounts | src/dbkit/_core/config.py:77-82 | the primary and every replica add size plus overflow of their own or the default pool, and nothing if pooling is delegated |
| Config.DriverIsAfterPlus | src/dbkit/_core/config.py:222-226 | a URL scheme `dialect+driver` names the driver, and one without a plus sign itself |
| Config.CapacityWith | src/dbkit/_core/config.py:278-292 | replacing or adding one database changes the total by its own capacity |
| Config.EvictionFreesCapacity | src/dbkit/_async/database.py:338-345 | dropping databases with non-negative pools never raises the total |
| Config.DroppingFreesExactlyWhen | src/dbkit/_core/config.py:376-382 | dropping databases never raises the total, whichever they are, exactly when no database has a negative capacity |
| Config.NegativePoolHidesCapacity | src/dbkit/_core/config.py:243-250 | without that it can: a negative pool, which target validation lets through, hides capacity |
| Database.AsyncDatabase.RegisterDatabase | src/dbkit/_async/database.py:185-239 | after every registration engines, limiters, breakers and replica rotation agree with the configuration; a refused one changes nothing; an accepted one installs the entry and unregisters exactly the least recently touched dynamic names beyond the cap; with non-negative pools the total capacity is within the enforced budget from then on |
| Database.AsyncDatabase.RefusedExactlyWhen | src/dbkit/_core/config.py:243-292 | a registration is refused exactly when a target lacks its URL or scheme, or a budget that is set and enforced is exceeded, its own by its targets or that of the process by the new map |
| Database.AsyncDatabase.ConnectPrimary | src/dbkit/_async/database.py:234-237 | eager connection: afterwards the primary's engine is cached, unless creating it failed or the name is already evicted |
| Database.AsyncDatabase.EnsureDatabase | src/dbkit/_async/database.py:241-272 | an unchanged configuration only moves the name in the LRU; anything else registers |
| Database.AsyncDatabase.UnregisterDatabase | src/dbkit/_async/database.py:274-291 | a known name leaves the map, the LRU, the engines, the limiters and the rotation; an unknown one changes nothing |
| Database.AsyncDatabase.EvictLruDatabases | src/dbkit/_async/database.py:329-346 | the loop unregisters exactly the oldest names beyond the cap and purges each of them |
| Database.AsyncDatabase.PurgeDatabaseState | src/dbkit/_async/database.py:348-351 | one database's engines, limiter and breakers are gone, the others' are untouched |
| Database.AsyncDatabase.Resolve | src/dbkit/_async/database.py:366-395 | a route always names a target the registry finds; write, primary_only and pinned requests always go to the primary; read and prefer_replica, when not pinned and a replica is configured, go to one of the configured replicas |
| Database.AsyncDatabase.EntryFor | src/dbkit/_async/executor.py:71-75 | resolving and getting together, also in a registry that is not coherent: only an unknown database is a routing error, and the answer is that of one registry step; in a coherent facade without colons the engine was built from the target configured now, the primary for writes and pinned requests and the routed replica for reads |
| Database.AsyncDatabase.DrainEngine | src/dbkit/_async/database.py:685-703 | drops one engine by its text and leaves everything coherent |
| Database.AsyncDatabase.Close | src/dbkit/_async/database.py:168-172 | leaves no engine behind and everything coherent |
| Database.TouchedMatches | src/dbkit/_async/database.py:322-327 | touching keeps the LRU equal to the registered names that are not static |
| Database.EvictionMatches | src/dbkit/_async/database.py:335-345 | eviction keeps that too, never takes a static name, and ends within the cap |
| Database.JustTouchedSurvives | src/dbkit/_async/database.py:230-231 | the name just registered is evicted exactly when the cap is zero |
| Database.IndexesFollow | src/dbkit/_async/database.py:222-231 | when one database changes and everything built from it is dropped, every other index entry still matches |
| Database.AsyncDatabase.ReplaceAmidOthers | src/dbkit/_async/database.py:216-229 | replacing a registered database while other tasks request and drain engines and build limiters: configuration, limiters, breakers and rotation agree afterwards, and the engines do exactly when none was left behind |
| Database.AsyncDatabase.EvictAmidOthers | src/dbkit/_async/database.py:329-346 | the eviction loop while other tasks ensure unchanged databases: what it does to the map and the LRU is a run of the loop of EvictionWindow, and it ends |
| EvictionWindow.GhostExactlyWhen | src/dbkit/_async/database.py:268-270 | a round of the eviction leaves its victim in the LRU exactly when the victim was registered and is ensured while the round waits |
| EvictionWindow.EvictionLeaves | src/dbkit/_async/database.py:338-345 | whatever is ensured meanwhile: no registered name leaves the LRU, and afterwards as many databases fewer than the cap are registered as there are names in the LRU that are not |
| EvictionWindow.GhostTakesAPlace | src/dbkit/_async/database.py:338-345 | one ensure of the first victim at the wrong moment makes an eviction end with one database fewer than the cap |
| EvictionWindow.LeftAloneMatches | src/dbkit/_async/database.py:338-345 | if no victim is ensured while the eviction waits for it, LRU and registered dynamic names agree afterwards |
| EvictionWindow.AlwaysMatchesExactlyWhen | src/dbkit/_async/database.py:338-345 | LRU and registered dynamic names agree after an eviction, whatever is ensured meanwhile, exactly when there is nothing to evict or the cap is zero |
| Database.AsyncDatabase.Start | src/dbkit/_async/database.py:146-159 | starting validates the default pool, the breaker threshold, the databases and the budgets, creates the engines of the required primaries, and is started exactly when nothing failed; in a registry that does not evict all of these engines are then cached |
| Database.AsyncDatabase.ConfigIsValidExactlyWhen | src/dbkit/_core/config.py:363-374 | a start is let through exactly when the default pool has no negative size, the breaker threshold is positive, every database has a name, every target URL and scheme, and no enforced budget of a database is exceeded; the process budget is checked beside it |
| Routing.RoundRobinReplicaSelector.PickedIsFair | src/dbkit/_core/routing.py:210-217 | between changes of the list, the selections made on the object use any two positions of it equally often, up to one; a name listed several times gets as many shares |
| Routing.PicksCount | src/dbkit/_core/routing.py:215-217 | exactly how often a run of selections picks each replica |
| Routing.RoundRobinReplicaSelector.Select | src/dbkit/_core/routing.py:210-217 | answers the replica at the counter modulo the list, or none exactly when there is none, advances the counter, and records the position |
| Routing.RoundRobinReplicaSelector.SetReplicas | src/dbkit/_core/routing.py:219-230 | replaces or removes one rotation and keeps the counter of a replaced one |
| Routing.HashShardResolver.Resolve | src/dbkit/_core/routing.py:111-127 | the answer is exactly the bucket of the key that filled the entry, or of the key itself on a miss; the cache holds the most recently used distinct keys, never more than 4096 |
| Routing.BucketIsNumbered | src/dbkit/_core/routing.py:120-123 | an answer is the prefix, a dash and a number below the number of shards, the digest modulo that number, in at least three digits and in exactly three up to 1000 shards |
| Routing.SameBucketExactlyWhen | src/dbkit/_core/routing.py:120-123 | two texts share a bucket exactly when their digests agree modulo the number of shards |
| Routing.MemoIsRecent | src/dbkit/_core/routing.py:117-127 | after every trace the entries are those of the most recently used distinct keys, each filled by a key that was asked for and compares equal |
| Routing.PureExactlyWhen | src/dbkit/_core/routing.py:111-127 | over a set of keys, every answer of every trace is the uncached one, for every digest and number of shards, exactly when keys of the set that compare equal have equal text |
| Routing.FirstAskedDecides | src/dbkit/_core/routing.py:117-127 | of two keys that compare equal, whichever is asked first decides the answer for both |
| Routing.HashShardResolver.Remember | src/dbkit/_core/routing.py:124-126 | inserts as the newest and drops the oldest beyond the cap |
| Outbox.OutboxIsSafe | src/dbkit/integrations/outbox.py:121-158 | over every run: the table holds exactly the inserts of committed transactions, only those are published, no row is claimed by two relays, and a row marked sent was published |
| Outbox.ClaimTakes | src/dbkit/integrations/outbox.py:142-149 | a claim takes unsent, unlocked committed rows in id order, at most the batch size |
| Outbox.ClaimTakesFirst | src/dbkit/integrations/outbox.py:142-149 | and passes none over: one left behind comes after a full batch |
| Outbox.CommitMarks | src/dbkit/integrations/outbox.py:154-157 | a relay's commit marks exactly the rows it claimed, and all of them were published |
| Outbox.RunAdvances | src/dbkit/integrations/outbox.py:121-158 | nothing is ever unpublished, deleted or marked unsent again |
| Outbox.RepeatsArePaidFor | src/dbkit/integrations/outbox.py:134-140 | the exact count: a message of a row is published once for every drain that ended without a commit after publishing it, and once more if it is sent or a relay at work has published it; any other message never |
| Outbox.ExactlyOnceWithoutAborts | src/dbkit/integrations/outbox.py:134-140 | if no drain fails, an event is published exactly once if it is sent or a relay at work has published it, and else not at all |
| Outbox.AbortRepeats | src/dbkit/integrations/outbox.py:137-139 | a failed drain does repeat what it had published |
| Outbox.EveryEventCanStillBeSent | src/dbkit/integrations/outbox.py:134-140 | from every reachable state, even if every relay dies now, drains with any one positive batch size publish and mark every committed event |
| Outbox.NoLimitNoPublishing | src/dbkit/integrations/outbox.py:145-151 | a batch size of zero or less never publishes anything |
| Inbox.OneEffectPerMessage | src/dbkit/integrations/inbox.py:80-153 | over every run of repeated deliveries, crashes and commits: committed effects equal 1 for a message in the inbox and 0 otherwise, what is acknowledged took effect exactly once, and two open transactions never hold the same inbox row |
| Inbox.EffectIsFinal | src/dbkit/integrations/inbox.py:107-112 | a committed effect is never taken back and never repeated |
| Inbox.HandlingSucceeds | src/dbkit/integrations/inbox.py:136-153 | an undisturbed delivery ends acknowledged with the effect committed exactly once, whether it is the first or a duplicate |
| Delivery.EffectivelyOnce | src/dbkit/integrations/inbox.py:115-153 | end to end, in every run: only events of committed transactions are published, locks are disjoint, sent rows were published, effects are 1 or 0 with the inbox row, and an acknowledged message was published and effective exactly once |
| Delivery.EveryEventCanStillArrive | src/dbkit/integrations/outbox.py:121-158 | from every reachable state, even if every process dies now, a committed event can still be sent, effective and acknowledged for any consumer |
| Processes.World.Enqueue | src/dbkit/integrations/outbox.py:93-118 | the id is returned before the transaction ends and no row shows yet |
| Processes.World.Drain | src/dbkit/integrations/outbox.py:121-158 | whatever others do meanwhile: it returns exactly when connection, query, every publish, the stamp and COMMIT go well, and then its rows are published and marked sent; its own steps are a claim, a publish per row in order, the stamp and the commit, or a prefix and a rollback, or none if it raises before the claim |
| Processes.World.AckAfterCommit | src/dbkit/integrations/inbox.py:115-153 | whatever others do meanwhile, the first thing that goes wrong decides: nothing, and it is acknowledged, with the effect committed once; a retryable database error goes to `retry` and a permanent one to `dead_letter`, exactly if there is that callback, after a rollback; every other error is raised, a lost commit and a failing ack included |
| Bulk.SplitIsRowByRow | src/dbkit/_async/database.py:942-1003 | split_on_failure leaves the table that inserting row by row and skipping failing rows would, whatever the batches and whichever of them fail; dropped is exactly the skipped rows; written is off by how far the reported counts are |
| Bulk.BatchSizeDoesNotMatter | src/dbkit/_async/database.py:942-1003 | so neither table nor dropped count depends on the batch size |
| Bulk.CountsAddUpExactlyWhen | src/dbkit/_async/database.py:942-1003 | for every server and every mode: written plus dropped equals the row count in every run over non-empty batches exactly when every batch statement reports its size or nothing, none fails in COMMIT, and, with split_on_failure, no row of a failed batch fails in its own COMMIT |
| Bulk.ExactCountsSufficeExactlyWhen | src/dbkit/_async/database.py:980-1003 | given how the server treats single rows: counts add up for every way it may treat batches with exact counts exactly when there is no splitting or no row sent after a batch fails in COMMIT |
| Bulk.PlainInsertsAddUp | src/dbkit/_async/database.py:956-958 | plain inserts add up, with no excess in the written count, when no commit is lost |
| Bulk.ConflictsMiscount | src/dbkit/_async/database.py:956-958 | ON CONFLICT DO NOTHING does not: the reported total depends on the batch size, and conflicts alone count as written |
| Bulk.BestEffortBySingleRows | src/dbkit/_async/database.py:960-979 | best_effort is row by row when every batch has one row |
| Bulk.BestEffortExactlyWhen | src/dbkit/_async/database.py:960-979 | with statements that fail only for their rows, best_effort keeps the rows that row by row keeps in every run exactly when no table has both a row that changes it and one that is refused before or after that |
| Bulk.BestEffortDependsOnBatchSize | src/dbkit/_async/database.py:960-979 | a table where its result depends on the batch size |
| Bulk.RowsRepeatAfterLostCommit | src/dbkit/_async/database.py:959-1003 | after an error in COMMIT the rows are inserted again, on top of whatever that commit left |
| Bulk.LostCommitDuplicates | src/dbkit/_async/database.py:959-1003 | on a table without a key, every lost commit that took effect stores its batch twice |
| Bulk.LostCommitsHarmlessExactlyWhen | src/dbkit/_async/database.py:959-1003 | over all servers that may lose commits, splitting is row by row in every run exactly when sending an inserted batch again changes nothing |
| Bulk.UniqueKeyRepeatsQuietly | src/dbkit/_async/database.py:959-1003 | which a unique key that rejects duplicates guarantees |
| Bulk.AtomicPutsAllIn | src/dbkit/_async/database.py:886-905 | an atomic write that reaches its commit has put every row in, whatever the batches |
| Bulk.AtomicSucceedsExactlyWhen | src/dbkit/_async/database.py:886-905 | and it gets there exactly when every row can go in, if statements fail only for their rows |
| Bulk.Session.BulkBestEffort | src/dbkit/_async/database.py:925-1004 | the nested loops leave table and counts as the specified fold over the batches does |
| Bulk.Session.BulkAtomic | src/dbkit/_async/database.py:886-905 | all batches in one transaction: the table changes only by a commit of all of them, and a result is only given for a confirmed one |
| Bulk.Session.BulkWrite | src/dbkit/_async/database.py:817-923 | the whole write: empty input sends nothing; no batch exceeds the resolved size, nor 65535 parameters if a row does not; the modes without a transaction leave table and counts as the fold over the batches does, split_on_failure row by row, also with lost commits if repeating is harmless; atomic mode has every row in or leaves the table alone, as COMMIT ends |
| Bulk.ResolveBatchRows | src/dbkit/_core/bulk.py:52-75 | the largest batch within the row, parameter and byte limits, or one row if not even that fits |
| Bulk.BatchIsLargestWithin | src/dbkit/_core/bulk.py:52-75 | in terms of the settings: more than one row only within the size asked for, the largest size, the parameters and the payload bytes where known, and one row more would be beyond one of them |
| Bulk.StatementFitsWhenRowDoes | src/dbkit/_core/bulk.py:66-75 | a statement stays within 65535 parameters exactly when a single row does |
| Bulk.IterBatches | src/dbkit/_core/bulk.py:78-83 | the slices concatenate to the input, none is empty, and only the last may be short |
| Bulk.TransposeRoundTrip | src/dbkit/postgres/unnest.py:69-73 | reading the column arrays back gives each row cut to the columns, and the very row exactly when it has no further ones |
| Transaction.ServerKeepsSurvivors | src/dbkit/_async/transaction.py:55-65 | for every sequence of statements it accepts, a server that keeps subtransactions keeps exactly the writes that no rolled-back block encloses |
| Transaction.TreeMeaning | src/dbkit/_async/transaction.py:55-65 | the tree meaning of nested savepoint blocks is exactly that: the writes not inside a block left by an exception |
| Transaction.ExitMeaning | src/dbkit/_async/transaction.py:55-65 | code ends normally exactly when nothing is raised that no handler outside a block stops, and by a cancellation exactly when one is reached, which no handler stops |
| Transaction.ServesCode | src/dbkit/_async/transaction.py:55-65 | the statements of a body add its surviving writes to the innermost open block and leave every block around it alone |
| Transaction.AsyncTransactionManager.RunSavepoint | src/dbkit/_async/transaction.py:55-65 | a block is released on a normal exit and rolled back on every other, cancellation included; any of its statements may lose the session, and then the block ends in an error |
| Transaction.AsyncTransactionManager.Run | src/dbkit/_async/transaction.py:55-65 | running a body sends its statements and ends as its meaning says, unless the session is lost, which happens exactly if it does not last for all of them; from then on every statement raises |
| Transaction.AsyncTransactionManager.Enter | src/dbkit/_async/transaction.py:160-189 | entering succeeds exactly when each of its steps does, and else every connection checked out is given back |
| Transaction.AsyncTransactionManager.Exit | src/dbkit/_async/transaction.py:215-276 | a clean exit sends COMMIT: it is committed if the server confirms, unknown if the connection is lost, with the writes in exactly if it was applied, and refused otherwise; any other exit rolls back and commits nothing; a cancellation invalidates the connection; it is released unless recording the outcome raises |
| Transaction.AsyncTransactionManager.Release | src/dbkit/_async/transaction.py:296-306 | gives the connection back once; a second call finds nothing |
| Transaction.AsyncTransactionManager.Transact | src/dbkit/_async/transaction.py:115-311 | around any code: if it is entered, the session lasts, the code ends normally and COMMIT is confirmed, exactly the surviving writes are committed; a lost COMMIT that was applied did the same; in every other case nothing is; the connection is given back exactly once if it was checked out, exactly unless recording raises |
| Batch.ItemsConserved | src/dbkit/integrations/batch.py:43-81 | after any sequence of steps the batches handed over followed by the buffer are the accepted items in order; batches are non-empty and at most max_size; a non-empty buffer has an armed timer |
| Batch.RunsConserve | src/dbkit/integrations/batch.py:43-81 | the same from a new collector |
| Batch.ClosedForGood | src/dbkit/integrations/batch.py:59-63 | after a close nothing is buffered or handed over any more |
| Batch.BufferedWillBeHanded | src/dbkit/integrations/batch.py:65-71 | what is buffered has a live timer, whose firing hands all of it over |
| Batch.TimerCancelsItself | src/dbkit/integrations/batch.py:65-81 | a batch is handed over in a task with a pending cancellation exactly when a timer flush hands it over |
| Batch.BatchCollector.Add | src/dbkit/integrations/batch.py:43-52 | below max_size an add keeps the item at the end of the buffer, arms the timer and hands nothing over; at max_size it hands over the whole buffer with the item; a closed collector raises and changes nothing |
| Batch.AddWaitsUntilFull | src/dbkit/integrations/batch.py:43-52 | so an add hands over exactly full batches |
| Batch.BatchCollector.Close | src/dbkit/integrations/batch.py:59-63 | a close empties the buffer and stays closed |
| Batch.BatchCollector.TimerFlush | src/dbkit/integrations/batch.py:65-71 | a timer that was not cancelled in time flushes, and has cancelled itself |
| Batch.BatchCollector.FlushBuffer | src/dbkit/integrations/batch.py:73-81 | the buffer is handed over once and emptied even if the callback raises |

## Left out

- The synchronous tree (`src/dbkit/_sync`): generated from the asynchronous one.
- SQLAlchemy, drivers, COPY, pipelines and streaming: a connection is a server with begin, execute, commit, rollback and close outcomes.
- All SQL text, including the partitioned inbox and outbox tables and their month partitions.
- asyncio internals: steps are taken at await and lock points; a cancellation in the middle of COMMIT is excluded.
- Weighted replica selection, and the range, directory and callable shard resolvers: single look-ups.
- `effective_timeout` and statement timeouts: the timeouts reach the model as waits that may end early.
- Metrics, logging and tracing, except that recording a transaction's outcome may raise.
- URL parsing: a target carries its URL scheme. `resolved_pool` treats a pool object as always true, as the dataclass is.
- `estimate_row_bytes`: the estimate of the sample row is a parameter of the batch sizing.
- Payload JSON of the outbox: an event carries its payload as text. Message ids are the outbox ids.
- A negative `max_databases`, which makes the eviction loop run out of names, and a negative `max_engines`.
- The first eight bytes of SHA-256: an arbitrary function of the text.
- Disposals that raise, and connections that fail while they are being closed.
- Database.AsyncDatabase.RegisterDatabase: coherence is stated for operations that run one after another; what other tasks do while it awaits disposal is the subject of ReplaceAmidOthers and of ConfigSwap.dfy.
- Database.AsyncDatabase.EntryFor: the shard resolver's answer is a parameter; a custom resolver or selector that raises or answers unknown names is not modelled.
- Transaction.AsyncTransactionManager.RunSavepoint: a SAVEPOINT or RELEASE that fails on a session that stays intact.
- Transaction.AsyncTransactionManager.Run: a failing write is an exception at that point, and handlers stand right outside a block.
- Transaction.AsyncTransactionManager.Exit: a COMMIT refused for a reason that is not a connection error is taken not to have committed.
- Database.AsyncDatabase.Start: the validation of retry and time-out settings, the optional ping, and which of the primaries are left in a registry that evicts (Engine.RegistryHoldsMostRecent says which).
- Database.AsyncDatabase.EvictAmidOthers: what requests of other tasks do to the engines meanwhile is the subject of ConfigSwap.dfy.
- Limiter.Attempt: entering the tiers without other tasks in between; the interleavings are those of the task system in the same file.
- Retry.NoSleepReachesDeadline: bounds the guard's own clock reading; how much later the sleep really starts is left to the clock.
- Bulk.Session.BulkWrite: one unsharded target; the limiter slots it holds are in Limiter.dfy, the plan of a bulk task.
- Batch.ItemsConserved: stated for items handed to the callback; what the callback does with them is not part of the collector.
- Processes.World.Drain: a claim that waits for no lock is one step; the broker is a log that keeps every message it accepted.
- Processes.World.AckAfterCommit: a claim blocked by another open transaction either waits, with other processes running, or fails with an error; whether the waiter is woken in order is left open. A callback that raises itself counts as called.
