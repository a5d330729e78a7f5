/** The per-database limiters and per-target breakers that `_async/executor.py` caches. */
module Executor {
  import opened Wrappers
  import opened Config
  import opened Keys
  import Circuit
  import Limiter
  import Retry

  type Limits = map<Limiter.Tier, Option<int>>

  /** Every cached limiter was built from the limits its database has now. */
  predicate LimitersMatch(databases: Databases, limiters: map<string, Limits>) {
    forall d :: d in limiters ==> d in databases && limiters[d] == LimitsOf(databases[d])
  }

  /** Every cached breaker belongs to a target of a registered database. */
  predicate BreakersMatch(environment: string, databases: Databases, owners: map<string, EngineKey>) {
    forall t :: t in owners ==>
      t == KeyText(owners[t]) && owners[t].environment == environment && owners[t].database in databases
  }

  class ResilientExecutor {
    const config: LiveConfig
    const breakersEnabled: bool
    const breakerSettings: Circuit.Settings
    var limiters: map<string, Limits>
    var breakers: map<string, Circuit.CircuitBreaker>
    ghost var owners: map<string, EngineKey>   // the key each breaker was created for

    ghost predicate Coherent()
      reads this, config
    {
      && LimitersMatch(config.databases, limiters)
      && BreakersMatch(config.environment, config.databases, owners)
      && owners.Keys == breakers.Keys
    }

    /** At this time every cached breaker can be used, and has the configured settings. */
    ghost predicate Ready(now: real)
      reads this, breakers.Values
    {
      forall t :: t in breakers ==> Retry.Usable(breakers[t], now) && breakers[t].settings == breakerSettings
    }

    constructor (config: LiveConfig, breakersEnabled: bool, breakerSettings: Circuit.Settings)
      ensures Coherent() && limiters == map[] && breakers == map[]
      ensures this.config == config && this.breakersEnabled == breakersEnabled
      ensures this.breakerSettings == breakerSettings
    {
      this.config, this.breakersEnabled, this.breakerSettings := config, breakersEnabled, breakerSettings;
      limiters, breakers, owners := map[], map[], map[];
    }

    /** One limiter per database, built on first use. */
    method LimiterFor(database: string) returns (limits: Limits)
      requires Coherent() && database in config.databases
      modifies this`limiters
      ensures Coherent() && limits == LimitsOf(config.databases[database])
      ensures limiters == old(limiters)[database := limits]
    {
      if database !in limiters {
        limiters := limiters[database := LimitsOf(config.databases[database])];
      }
      limits := limiters[database];
    }

    /** One breaker per target, built closed on first use; null when breakers are disabled. What is
        answered can be used, has the configured settings, and is the one that every later call for a key
        of the same text gets. */
    method BreakerFor(key: EngineKey, ghost now: real) returns (breaker: Circuit.CircuitBreaker?)
      requires Coherent() && Ready(now) && key.environment == config.environment && key.database in config.databases
      modifies this`breakers, this`owners
      ensures Coherent() && Ready(now) && Retry.Usable(breaker, now)
      ensures !breakersEnabled ==> breaker == null && breakers == old(breakers)
      ensures breakersEnabled ==>
                && breaker != null && breaker.settings == breakerSettings
                && breakers == old(breakers)[KeyText(key) := breaker]
                && (KeyText(key) in old(breakers) ==> breaker == old(breakers)[KeyText(key)])
                && (KeyText(key) !in old(breakers) ==>
                      fresh(breaker) && breaker.Model() == Circuit.INITIAL && breaker.calls == [])
    {
      if !breakersEnabled {
        return null;
      }
      if KeyText(key) in breakers {
        breaker := breakers[KeyText(key)];
        assert breakers == breakers[KeyText(key) := breaker];
      } else {
        breaker := AddBreaker(key, now);
      }
    }

    method AddBreaker(key: EngineKey, ghost now: real) returns (breaker: Circuit.CircuitBreaker)
      requires Coherent() && Ready(now) && key.environment == config.environment && key.database in config.databases
      requires KeyText(key) !in breakers
      modifies this`breakers, this`owners
      ensures Coherent() && Ready(now) && Retry.Usable(breaker, now)
      ensures fresh(breaker) && breaker.Model() == Circuit.INITIAL && breaker.settings == breakerSettings
      ensures breaker.calls == []
      ensures breakers == old(breakers)[KeyText(key) := breaker]
    {
      breaker := new Circuit.CircuitBreaker(breakerSettings, now);
      breakers, owners := breakers[KeyText(key) := breaker], owners[KeyText(key) := key];
    }

    /** One call on a target: its breaker and limiter, then the retry loop. The effect is committed at
        most once under the hypothesis about the server, and every cached breaker stays usable. */
    method Execute(key: EngineKey, world: Retry.World, job: Retry.Job)
        returns (outcome: Retry.Outcome, limits: Limits, ghost tries: seq<Retry.Try>)
      requires Coherent() && Ready(world.clock)
      requires key.environment == config.environment && key.database in config.databases
      modifies this`limiters, this`breakers, this`owners, world, breakers.Values
      ensures Coherent() && Ready(world.clock) && limits == LimitsOf(config.databases[key.database])
      ensures Retry.Honest(tries) ==>
                && old(world.effects) <= world.effects <= old(world.effects) + 1
                && (outcome == Retry.Value ==> world.effects == old(world.effects) + if job.commit then 1 else 0)
      ensures !Retry.MayRepeat(job) ==> world.effects <= old(world.effects) + 1
      ensures outcome == Retry.CircuitOpen ==> breakersEnabled
      ensures world.effects == old(world.effects) + Retry.CommitCount(tries)
      ensures breakersEnabled ==>
                && KeyText(key) in breakers
                && (KeyText(key) in old(breakers) ==>
                      old(breakers[KeyText(key)].calls) + Retry.Driven(tries) <= breakers[KeyText(key)].calls)
                && (KeyText(key) !in old(breakers) ==> Retry.Driven(tries) <= breakers[KeyText(key)].calls)
      ensures forall i :: 0 <= i < |tries| && tries[i].sent == Some(Retry.CommitLost) ==>
                i == |tries| - 1 && outcome.Raised? && !outcome.error.retryable && outcome.error.stateUnknown
      ensures var fate := world.fates(old(world.runs));
              !breakersEnabled && fate.body == Retry.BodyDone && (job.commit ==> fate.commit == Retry.CommitDone) ==>
                && outcome == Retry.Value
                && world.effects == old(world.effects) + if job.commit then 1 else 0
    {
      var breaker;
      breaker, limits := Prepare(key, world.clock);
      outcome, tries := RunGuarded(breaker, world, job);
    }

    /** The breaker and the limiter of a call. */
    method Prepare(key: EngineKey, ghost now: real) returns (breaker: Circuit.CircuitBreaker?, limits: Limits)
      requires Coherent() && Ready(now) && key.environment == config.environment && key.database in config.databases
      modifies this`limiters, this`breakers, this`owners
      ensures Coherent() && Ready(now) && Retry.Usable(breaker, now)
      ensures limits == LimitsOf(config.databases[key.database])
      ensures breaker == null <==> !breakersEnabled
      ensures breaker != null ==>
                && KeyText(key) in breakers && breakers[KeyText(key)] == breaker
                && (KeyText(key) in old(breakers) ==> breaker == old(breakers)[KeyText(key)])
                && (KeyText(key) !in old(breakers) ==> fresh(breaker) && breaker.calls == [])
      ensures breaker != null ==> fresh(breaker) || breaker in old(breakers.Values)
    {
      breaker := BreakerFor(key, now);
      limits := LimiterFor(key.database);
    }

    method RunGuarded(breaker: Circuit.CircuitBreaker?, world: Retry.World, job: Retry.Job)
        returns (outcome: Retry.Outcome, ghost tries: seq<Retry.Try>)
      requires Ready(world.clock) && Retry.Usable(breaker, world.clock)
      modifies world, breaker
      ensures Ready(world.clock)
      ensures Retry.Honest(tries) ==>
                && old(world.effects) <= world.effects <= old(world.effects) + 1
                && (outcome == Retry.Value ==> world.effects == old(world.effects) + if job.commit then 1 else 0)
      ensures !Retry.MayRepeat(job) ==> world.effects <= old(world.effects) + 1
      ensures outcome == Retry.CircuitOpen ==> breaker != null
      ensures world.effects == old(world.effects) + Retry.CommitCount(tries)
      ensures breaker != null ==> old(breaker.calls) + Retry.Driven(tries) <= breaker.calls
      ensures forall i :: 0 <= i < |tries| && tries[i].sent == Some(Retry.CommitLost) ==>
                i == |tries| - 1 && outcome.Raised? && !outcome.error.retryable && outcome.error.stateUnknown
      ensures var fate := world.fates(old(world.runs));
              breaker == null && fate.body == Retry.BodyDone && (job.commit ==> fate.commit == Retry.CommitDone) ==>
                && outcome == Retry.Value
                && world.effects == old(world.effects) + if job.commit then 1 else 0
    {
      outcome, tries := Retry.ExecuteWithResilience(world, breaker, job);
    }

    /** Drop the limiter and the breakers of one database, the latter by the prefix of their text. */
    method ForgetDatabase(database: string)
      modifies this`limiters, this`breakers, this`owners
      ensures limiters == old(limiters) - {database}
      ensures owners.Keys <= old(owners).Keys && forall t :: t in owners ==> owners[t] == old(owners)[t]
      ensures old(owners.Keys == breakers.Keys) ==> owners.Keys == breakers.Keys
      ensures forall t :: t in breakers <==>
                t in old(breakers) && !(DatabasePrefix(config.environment, database) <= t)
      ensures forall t :: t in breakers ==> breakers[t] == old(breakers)[t]
    {
      limiters := limiters - {database};
      var prefix := DatabasePrefix(config.environment, database);
      breakers := map t | t in breakers && !(prefix <= t) :: breakers[t];
      owners := map t | t in owners && !(prefix <= t) :: owners[t];
    }
  }

  /** The prefix purge leaves no breaker of the forgotten database behind, whatever its name. */
  lemma NoBreakerLeft(environment: string, databases: Databases, owners: map<string, EngineKey>,
                      database: string, t: string)
    requires BreakersMatch(environment, databases, owners)
    requires t in owners && !(DatabasePrefix(environment, database) <= t)
    ensures owners[t].database != database
  {
    OwnPrefix(owners[t]);
  }

  /** Among names without colons it drops exactly that database's breakers. */
  lemma PurgeIsExact(environment: string, databases: Databases, owners: map<string, EngineKey>,
                     database: string, t: string)
    requires BreakersMatch(environment, databases, owners) && t in owners && Plain(owners[t])
    requires ColonFree(environment) && ColonFree(database)
    ensures DatabasePrefix(environment, database) <= t <==> owners[t].database == database
  {
    PrefixSelectsDatabase(owners[t], environment, database);
  }
}
