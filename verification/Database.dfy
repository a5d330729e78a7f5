/** The facade's registrations and routing (`_async/database.py`): one configuration map, and the
    engine table, limiter and breaker caches, replica rotation and name LRU that must agree with it. */
module Database {
  import opened Wrappers
  import opened Config
  import opened ConfigSwap
  import opened EvictionWindow
  import opened Keys
  import opened Routing
  import Engine
  import Executor
  import Recency
  import Circuit

  // ---- what the indexes must say ----------------------------------------------------------

  function NamesIn(targets: seq<TargetConfig>): seq<string> {
    seq(|targets|, i requires 0 <= i < |targets| => targets[i].name)
  }

  function ReplicaNames(databases: Databases, d: string): seq<string> {
    if d in databases then NamesIn(databases[d].replicas) else []
  }

  lemma EnginesAfter(environment: string, before: Databases, after: Databases, entries: Engine.Entries,
                     gone: set<string>)
    requires Engine.AllCurrent(environment, before, entries) && SameExcept(before, after, gone)
    ensures Engine.AllCurrent(environment, after, Outside(entries, gone))
  {
    forall t | t in Outside(entries, gone)
      ensures Engine.Current(environment, after, t, Outside(entries, gone)[t])
    {
      var e := entries[t];
      assert Engine.Current(environment, before, t, e);
      assert Engine.TargetFor(after, Engine.RouteOf(e.key)) == Engine.TargetFor(before, Engine.RouteOf(e.key));
    }
  }

  lemma {:induction false} NamedReplicaIsFound(replicas: seq<TargetConfig>, i: nat)
    requires i < |replicas|
    ensures Engine.FindReplica(replicas, replicas[i].name).Some?
  {
    if replicas[0].name != replicas[i].name {
      NamedReplicaIsFound(replicas[1..], i - 1);
    }
  }

  // ---- the LRU of dynamic names -------------------------------------------------------------

  function Touched(statics: set<string>, lru: seq<string>, name: string): seq<string> {
    if name in statics then lru else Recency.Without(lru, name) + [name]
  }

  /** How many names are beyond the cap. */
  function Overflow(lru: seq<string>, cap: Option<nat>): nat {
    if cap == None || |lru| <= cap.value then 0 else |lru| - cap.value
  }

  function Victims(lru: seq<string>, cap: Option<nat>): set<string> {
    Recency.Keys(lru[..Overflow(lru, cap)])
  }

  function Survivors(lru: seq<string>, cap: Option<nat>): seq<string> {
    lru[Overflow(lru, cap)..]
  }

  /** The names in the LRU are distinct, and are exactly the registered ones that are not static. */
  predicate LruMatches(databases: Databases, statics: set<string>, lru: seq<string>) {
    Recency.Distinct(lru) && Recency.Keys(lru) == databases.Keys - statics
  }

  lemma TouchedMatches(databases: Databases, statics: set<string>, lru: seq<string>, name: string, db: DatabaseConfig)
    requires LruMatches(databases, statics, lru)
    ensures LruMatches(databases[name := db], statics, Touched(statics, lru, name))
  {
    if name !in statics {
      var others := Recency.Without(lru, name);
      Recency.WithoutKeys(lru, name);
      Recency.KeysConcat(others, [name]);
      assert name !in Recency.Keys(others);
    }
    assert databases[name := db].Keys == databases.Keys + {name};
  }

  lemma EvictionMatches(databases: Databases, statics: set<string>, lru: seq<string>, cap: Option<nat>)
    requires LruMatches(databases, statics, lru)
    ensures LruMatches(databases - Victims(lru, cap), statics, Survivors(lru, cap))
    ensures Victims(lru, cap) !! statics && Victims(lru, cap) !! Recency.Keys(Survivors(lru, cap))
    ensures cap.Some? ==> |Survivors(lru, cap)| <= cap.value
  {
    var k := Overflow(lru, cap);
    assert lru == lru[..k] + lru[k..];
    Recency.KeysConcat(lru[..k], lru[k..]);
    assert Victims(lru, cap) <= Recency.Keys(lru);
    forall x | x in Victims(lru, cap) ensures x !in Recency.Keys(lru[k..]) {
      var i :| 0 <= i < k && lru[i] == x;
      assert forall j :: 0 <= j < |lru[k..]| ==> lru[k..][j] == lru[k + j];
    }
    assert (databases - Victims(lru, cap)).Keys == databases.Keys - Victims(lru, cap);
  }

  /** The name just touched is evicted only by a cap of zero. */
  lemma JustTouchedSurvives(statics: set<string>, lru: seq<string>, name: string, cap: Option<nat>)
    requires Recency.Distinct(Touched(statics, lru, name)) && name !in statics
    ensures name in Victims(Touched(statics, lru, name), cap) <==> cap == Some(0)
  {
    var touched := Touched(statics, lru, name);
    var n := |touched| - 1;
    assert touched[n] == name;
    var k := Overflow(touched, cap);
    if k <= n {
      assert forall i :: 0 <= i < k ==> touched[i] != touched[n];
    } else {
      assert touched[..k][n] == name;
    }
  }

  /** With databases of sensible sizes, a total that was within the budget still is. */
  ghost predicate BudgetKept(sized: bool, budgeted: bool, databases: Databases, pool: PoolConfig, budget: Budget) {
    sized ==>
      && SizedPool(pool)
      && (forall d :: d in databases ==> Sized(databases[d]))
      && (budgeted ==> WithinBudget(budget, ProcessCapacity(databases, pool)))
  }

  lemma RemovalKeepsBudget(sized: bool, budgeted: bool, databases: Databases, pool: PoolConfig, budget: Budget,
                           gone: set<string>)
    requires BudgetKept(sized, budgeted, databases, pool, budget)
    ensures BudgetKept(sized, budgeted, databases - gone, pool, budget)
  {
    if sized {
      EvictionFreesCapacity(databases, pool, gone);
    }
  }

  lemma AdmissionKeepsBudget(sized: bool, budgeted: bool, databases: Databases, pool: PoolConfig, budget: Budget,
                             name: string, db: DatabaseConfig, gone: set<string>)
    requires BudgetKept(sized, budgeted, databases, pool, budget)
    requires WithinBudget(budget, ProcessCapacity(databases[name := db], pool))
    ensures BudgetKept(sized && Sized(db), true, databases[name := db] - gone, pool, budget)
  {
    RemovalKeepsBudget(sized && Sized(db), true, databases[name := db], pool, budget, gone);
  }

  /** What an admission does to the names. */
  lemma AdmissionMatches(databases: Databases, statics: set<string>, lru: seq<string>, cap: Option<nat>, name: string,
                         db: DatabaseConfig)
    requires LruMatches(databases, statics, lru)
    ensures var touched := Touched(statics, lru, name);
            var gone := Victims(touched, cap);
            && LruMatches(databases[name := db] - gone, statics, Survivors(touched, cap))
            && (cap.Some? ==> |Survivors(touched, cap)| <= cap.value)
            && gone !! statics && (name in gone <==> name !in statics && cap == Some(0))
  {
    var touched := Touched(statics, lru, name);
    TouchedMatches(databases, statics, lru, name, db);
    EvictionMatches(databases[name := db], statics, touched, cap);
    if name !in statics {
      JustTouchedSurvives(statics, lru, name, cap);
    }
  }

  // ---- the facade ---------------------------------------------------------------------------

  class AsyncDatabase {
    const config: LiveConfig
    const engines: Engine.AsyncEngineRegistry
    const executor: Executor.ResilientExecutor
    const replicas: RoundRobinReplicaSelector
    const statics: set<string>          // the names configured at construction
    const maxDatabases: Option<nat>
    var started: bool
    var dynamicLru: seq<string>         // least recently touched first
    ghost var sized: bool               // no database ever registered had a negative pool size
    ghost var budgeted: bool            // the process budget was met at first, or was checked since

    /** Engines, limiters, breakers and replica rotation agree with the configuration. */
    ghost predicate IndexesMatch()
      reads this, config, engines, executor, replicas
    {
      && engines.config == config && executor.config == config
      && engines.Coherent() && executor.Coherent() && RoutesMatch()
    }

    ghost predicate BudgetHolds()
      reads this, config
    {
      BudgetKept(sized, budgeted, config.databases, config.defaultPool, config.processBudget)
    }

    ghost predicate Valid()
      reads this, config, engines, executor, replicas
    {
      && IndexesMatch()
      && LruMatches(config.databases, statics, dynamicLru)
      && (maxDatabases.Some? ==> |dynamicLru| <= maxDatabases.value)
      && BudgetHolds()
    }

    constructor (config: LiveConfig, maxEngines: Option<nat>, evictLru: bool, maxDatabases: Option<nat>,
                 breakersEnabled: bool, breakerSettings: Circuit.Settings)
      ensures Valid() && this.config == config && this.maxDatabases == maxDatabases
      ensures budgeted == WithinBudget(config.processBudget, ProcessCapacity(config.databases, config.defaultPool))
      ensures statics == config.databases.Keys && dynamicLru == [] && !started
      ensures fresh(engines) && fresh(executor) && fresh(replicas)
    {
      this.config, this.maxDatabases := config, maxDatabases;
      engines := new Engine.AsyncEngineRegistry(config, maxEngines, evictLru);
      executor := new Executor.ResilientExecutor(config, breakersEnabled, breakerSettings);
      replicas := new RoundRobinReplicaSelector(map d | d in config.databases :: NamesIn(config.databases[d].replicas));
      statics, started, dynamicLru := config.databases.Keys, false, [];
      sized := SizedPool(config.defaultPool) && forall d :: d in config.databases ==> Sized(config.databases[d]);
      budgeted := WithinBudget(config.processBudget, ProcessCapacity(config.databases, config.defaultPool));
    }

    // -- registration --

    /** The checks made before anything is changed. */
    ghost predicate Accepts(name: string, db: DatabaseConfig)
      reads config
    {
      && ValidDatabase(db)
      && WithinBudget(db.budget, MaxConnections(db, config.defaultPool))
      && WithinBudget(config.processBudget,
                      ProcessCapacity(config.databases[name := db], config.defaultPool))
    }

    /** A registration is refused exactly when some target lacks its URL or scheme, or a budget that is
        set and enforced is exceeded: its own by its targets, or that of the process by the new map. */
    lemma RefusedExactlyWhen(name: string, db: DatabaseConfig)
      ensures !Accepts(name, db) <==>
                || (exists t :: t in [db.primary] + db.replicas && (t.url == "" || t.scheme == ""))
                || (db.budget.enforceAtStartup && db.budget.maximumPerProcess.Some?
                    && MaxConnections(db, config.defaultPool) > db.budget.maximumPerProcess.value)
                || (config.processBudget.enforceAtStartup && config.processBudget.maximumPerProcess.Some?
                    && ProcessCapacity(config.databases[name := db], config.defaultPool)
                       > config.processBudget.maximumPerProcess.value)
    {}

    method Check(name: string, db: DatabaseConfig) returns (ok: bool)
      ensures ok == Accepts(name, db)
    {
      var all := AllTargets(db);
      for i := 0 to |all|
        invariant forall j :: 0 <= j < i ==> ValidTarget(all[j])
      {
        if !ValidTarget(all[i]) {
          assert all[i] in all;
          return false;
        }
      }
      var own := MaxConnections(db, config.defaultPool);
      if !WithinBudget(db.budget, own) {
        return false;
      }
      var prospective := config.databases[name := db];
      var total := MaxConnectionsPerProcess(prospective, config.defaultPool);
      ok := WithinBudget(config.processBudget, total);
    }

    /** Dispose the engines and reset the limiter and breakers of one database. */
    method PurgeDatabaseState(name: string)
      requires IndexesMatch()
      modifies engines, executor
      ensures engines.entries == Outside(old(engines.entries), {name})
      ensures executor.limiters == old(executor.limiters) - {name}
      ensures Forgotten(old(executor.owners), name)
    {
      var n := engines.DisposeDatabase(name);
      ForgetResilience(name);
    }

    /** No breaker of `name` is left, and the others are those of before. */
    ghost predicate Forgotten(owners: map<string, EngineKey>, name: string)
      reads executor
    {
      && executor.owners.Keys == executor.breakers.Keys && executor.owners.Keys <= owners.Keys
      && forall t :: t in executor.owners ==>
           executor.owners[t] == owners[t] && executor.owners[t].database != name
    }

    method ForgetResilience(name: string)
      requires executor.config == config && executor.Coherent()
      modifies executor
      ensures executor.limiters == old(executor.limiters) - {name}
      ensures Forgotten(old(executor.owners), name)
    {
      ghost var owners := executor.owners;
      executor.ForgetDatabase(name);
      forall t | t in executor.owners ensures executor.owners[t].database != name {
        Executor.NoBreakerLeft(config.environment, config.databases, owners, name, t);
      }
    }

    /** The new map, and what the rotation then says. */
    method SwapIn(name: string, db: DatabaseConfig)
      requires RoutesMatch()
      modifies config`databases, replicas
      ensures config.databases == old(config.databases)[name := db] && RoutesMatch()
    {
      ghost var before := config.databases;
      config.databases := config.databases[name := db];
      replicas.SetReplicas(name, NamesIn(db.replicas));
      assert forall d :: d != name ==> ReplicaNames(config.databases, d) == ReplicaNames(before, d);
    }

    /** Give `name` a new configuration: purge what was built from the old one, swap the map, and
        tell the replica rotation. */
    method Install(name: string, db: DatabaseConfig)
      requires IndexesMatch()
      modifies config, engines, executor, replicas
      ensures IndexesMatch() && config.databases == old(config.databases)[name := db]
      ensures engines.entries == Outside(old(engines.entries), {name})
      ensures executor.limiters == old(executor.limiters) - {name}
    {
      ghost var before, owners := config.databases, executor.owners;
      if name in config.databases {
        PurgeDatabaseState(name);
      } else {
        UnknownHasNothing(config.environment, before, engines.entries, executor.limiters, owners, name);
      }
      IndexesFollow(config.environment, before, before[name := db], name, engines.maxEngines,
                    old(engines.entries), old(executor.limiters), owners, executor.owners);
      SwapIn(name, db);
    }

    /** Purge one database and take it out of the map and the rotation. */
    method Remove(name: string)
      requires IndexesMatch()
      modifies config, engines, executor, replicas
      ensures IndexesMatch() && config.databases == old(config.databases) - {name}
      ensures engines.entries == Outside(old(engines.entries), {name})
      ensures executor.limiters == old(executor.limiters) - {name}
    {
      ghost var before, owners := config.databases, executor.owners;
      PurgeDatabaseState(name);
      IndexesFollow(config.environment, before, before - {name}, name, engines.maxEngines,
                    old(engines.entries), old(executor.limiters), owners, executor.owners);
      config.databases := config.databases - {name};
      replicas.SetReplicas(name, []);
      assert forall d :: d != name ==> ReplicaNames(config.databases, d) == ReplicaNames(before, d);
    }

    method TouchDynamic(name: string)
      modifies this`dynamicLru
      ensures dynamicLru == Touched(statics, old(dynamicLru), name)
    {
      if name in statics {
        return;
      }
      dynamicLru := Recency.Without(dynamicLru, name) + [name];
    }

    /** Unregister the least recently touched dynamic databases beyond the cap. */
    method EvictLruDatabases()
      requires IndexesMatch() && LruMatches(config.databases, statics, dynamicLru)
      modifies this`dynamicLru, config, engines, executor, replicas
      ensures IndexesMatch()
      ensures dynamicLru == Survivors(old(dynamicLru), maxDatabases)
      ensures config.databases == old(config.databases) - Victims(old(dynamicLru), maxDatabases)
      ensures engines.entries == Outside(old(engines.entries), Victims(old(dynamicLru), maxDatabases))
      ensures executor.limiters == old(executor.limiters) - Victims(old(dynamicLru), maxDatabases)
    {
      ghost var lru, n := dynamicLru, 0;
      ghost var databases, entries, limiters := config.databases, engines.entries, executor.limiters;
      ghost var gone: set<string> := {};
      NoneGone(databases, entries, limiters);
      while maxDatabases.Some? && |dynamicLru| > maxDatabases.value
        invariant n <= Overflow(lru, maxDatabases) && dynamicLru == lru[n..]
        invariant IndexesMatch() && gone == Recency.Keys(lru[..n])
        invariant config.databases == databases - gone
        invariant engines.entries == Outside(entries, gone)
        invariant executor.limiters == limiters - gone
        decreases |dynamicLru|
      {
        var victim := dynamicLru[0];
        dynamicLru := dynamicLru[1..];
        Remove(victim);
        OneMoreGone(databases, entries, limiters, gone, victim);
        KeysGrow(lru, n);
        n, gone := n + 1, gone + {victim};
      }
      assert n == Overflow(lru, maxDatabases);
    }

    /** The part of a registration under the lock, after the checks: install, touch, evict. */
    method Admit(name: string, db: DatabaseConfig)
      requires Valid() && Accepts(name, db)
      modifies this`dynamicLru, this`sized, this`budgeted, config, engines, executor, replicas
      ensures Valid() && sized == (old(sized) && Sized(db)) && budgeted
      ensures var touched := Touched(statics, old(dynamicLru), name);
              var gone := Victims(touched, maxDatabases);
              && dynamicLru == Survivors(touched, maxDatabases)
              && config.databases == old(config.databases)[name := db] - gone
              && engines.entries == Outside(old(engines.entries), {name} + gone)
              && executor.limiters == old(executor.limiters) - ({name} + gone)
              && gone !! statics
              && (name in gone <==> name !in statics && maxDatabases == Some(0))
    {
      AdmissionMatches(config.databases, statics, dynamicLru, maxDatabases, name, db);
      AdmissionKeepsBudget(sized, budgeted, config.databases, config.defaultPool, config.processBudget, name, db,
                           Victims(Touched(statics, dynamicLru, name), maxDatabases));
      sized, budgeted := sized && Sized(db), true;
      InstallAndEvict(name, db);
    }

    method InstallAndEvict(name: string, db: DatabaseConfig)
      requires IndexesMatch() && LruMatches(config.databases, statics, dynamicLru)
      modifies this`dynamicLru, config, engines, executor, replicas
      ensures IndexesMatch()
      ensures var touched := Touched(statics, old(dynamicLru), name);
              var gone := Victims(touched, maxDatabases);
              && dynamicLru == Survivors(touched, maxDatabases)
              && config.databases == old(config.databases)[name := db] - gone
              && engines.entries == Outside(old(engines.entries), {name} + gone)
              && executor.limiters == old(executor.limiters) - ({name} + gone)
    {
      ghost var entries, limiters := engines.entries, executor.limiters;
      InstallTouched(name, db);
      AlsoOutside(entries, limiters, name, Victims(dynamicLru, maxDatabases));
      EvictLruDatabases();
    }

    method InstallTouched(name: string, db: DatabaseConfig)
      requires IndexesMatch() && LruMatches(config.databases, statics, dynamicLru)
      modifies this`dynamicLru, config, engines, executor, replicas
      ensures IndexesMatch() && LruMatches(config.databases, statics, dynamicLru)
      ensures dynamicLru == Touched(statics, old(dynamicLru), name)
      ensures config.databases == old(config.databases)[name := db]
      ensures engines.entries == Outside(old(engines.entries), {name})
      ensures executor.limiters == old(executor.limiters) - {name}
    {
      TouchedMatches(config.databases, statics, dynamicLru, name, db);
      Install(name, db);
      TouchDynamic(name);
    }

    /** Whether an engine is created right away: as asked, or once started for a required primary. */
    predicate Connects(connect: Option<bool>, db: DatabaseConfig)
      reads this
    {
      match connect
      case Some(b) => b
      case None => started && db.primary.required
    }

    /** The text of the key that the primary of a database is cached under. */
    function PrimaryText(name: string): string
      requires name in config.databases
      reads config
    {
      var route := ResolvedRoute(name, "default", Primary);
      KeyText(Engine.KeyFor(config.environment, route, config.databases[name].primary))
    }

    /** Eager creation of the primary's engine, which is cached afterwards unless it fails. */
    method ConnectPrimary(name: string, now: real, builds: bool) returns (failed: Option<Failure>)
      requires Valid()
      modifies engines
      ensures Valid()
      ensures failed == Some(RoutingError) <==> name !in config.databases
      ensures failed == None ==> PrimaryText(name) in engines.entries
      ensures engines.maxEngines == None || !engines.evictLru ==> old(engines.entries).Keys <= engines.entries.Keys
    {
      var route := ResolvedRoute(name, "default", Primary);
      ghost var rules, before := engines.Rules(), engines.Now();
      var entry, victim, _ := Fetch(route, now, builds);
      Engine.GetCaches(rules, before, route, now, builds, victim);
      failed := if entry.Err? then Some(entry.error) else None;
    }

    /** Register or replace a database. A refused registration changes nothing; an accepted one
        stands even when the eager connection then fails. */
    method RegisterDatabase(name: string, db: DatabaseConfig, connect: Option<bool>, now: real, builds: bool)
        returns (r: Result<bool>)
      requires Valid()
      modifies this`dynamicLru, this`sized, this`budgeted, config, engines, executor, replicas
      ensures Valid()
      ensures !old(Accepts(name, db)) ==>
                && r == Err(ConfigurationError)
                && config.databases == old(config.databases) && dynamicLru == old(dynamicLru)
                && engines.entries == old(engines.entries) && executor.limiters == old(executor.limiters)
                && sized == old(sized) && budgeted == old(budgeted)
      ensures old(Accepts(name, db)) ==>
                var touched := Touched(statics, old(dynamicLru), name);
                var gone := Victims(touched, maxDatabases);
                && dynamicLru == Survivors(touched, maxDatabases)
                && config.databases == old(config.databases)[name := db] - gone
                && executor.limiters == old(executor.limiters) - ({name} + gone)
                && gone !! statics
                && (name in gone <==> name !in statics && maxDatabases == Some(0))
                && sized == (old(sized) && Sized(db)) && budgeted
                && (r.Ok? ==> r.value == (name in old(config.databases)))
                && (connect == Some(false) || (connect == None && !(old(started) && db.primary.required)) ==>
                      r.Ok? && engines.entries == Outside(old(engines.entries), {name} + gone))
      ensures r.Ok? && (connect == Some(true) || (connect == None && old(started) && db.primary.required)) ==>
                name in config.databases && PrimaryText(name) in engines.entries
    {
      var ok := Check(name, db);
      if !ok {
        return Err(ConfigurationError);
      }
      var replaced := name in config.databases;
      Admit(name, db);
      if Connects(connect, db) {
        var failed := ConnectPrimary(name, now, builds);
        if failed.Some? {
          return Err(failed.value);
        }
      }
      r := Ok(replaced);
    }

    /** Register only when the name is missing or its configuration changed. */
    method EnsureDatabase(name: string, db: DatabaseConfig, connect: Option<bool>, now: real, builds: bool)
        returns (r: Result<bool>)
      requires Valid()
      modifies this`dynamicLru, this`sized, this`budgeted, config, engines, executor, replicas
      ensures Valid()
      ensures old(name in config.databases && config.databases[name] == db) ==>
                && r == Ok(false) && dynamicLru == Touched(statics, old(dynamicLru), name)
                && config.databases == old(config.databases) && engines.entries == old(engines.entries)
                && executor.limiters == old(executor.limiters)
      ensures r.Ok? && !(name !in statics && maxDatabases == Some(0)) ==>
                name in config.databases && config.databases[name] == db
      ensures !old(name in config.databases && config.databases[name] == db) ==>
                if old(Accepts(name, db)) then
                  var touched := Touched(statics, old(dynamicLru), name);
                  && r != Ok(false)
                  && dynamicLru == Survivors(touched, maxDatabases)
                  && config.databases == old(config.databases)[name := db] - Victims(touched, maxDatabases)
                else
                  && r == Err(ConfigurationError)
                  && config.databases == old(config.databases) && dynamicLru == old(dynamicLru)
    {
      if name in config.databases && config.databases[name] == db {
        TouchedMatches(config.databases, statics, dynamicLru, name, db);
        assert config.databases[name := db] == config.databases;
        StillCapped(config.databases, statics, dynamicLru, name);
        TouchDynamic(name);
        return Ok(false);
      }
      var registered := RegisterDatabase(name, db, connect, now, builds);
      if registered.Err? {
        return Err(registered.error);
      }
      r := Ok(true);
    }

    /** Remove a database, static or dynamic. */
    method UnregisterDatabase(name: string) returns (known: bool)
      requires Valid()
      modifies this`dynamicLru, config, engines, executor, replicas
      ensures Valid() && known == (name in old(config.databases))
      ensures config.databases == old(config.databases) - {name}
      ensures dynamicLru == Recency.Without(old(dynamicLru), name)
      ensures known ==> engines.entries == Outside(old(engines.entries), {name})
      ensures known ==> executor.limiters == old(executor.limiters) - {name}
      ensures !known ==> engines.entries == old(engines.entries) && executor.limiters == old(executor.limiters)
    {
      known := name in config.databases;
      ghost var before, lru := config.databases, dynamicLru;
      Recency.WithoutKeys(dynamicLru, name);
      if !known {
        assert name !in Recency.Keys(dynamicLru);
        Recency.WithoutAbsent(dynamicLru, name);
        return;
      }
      Remove(name);
      dynamicLru := Recency.Without(dynamicLru, name);
      assert (before - {name}).Keys - statics == (before.Keys - statics) - {name};
      RemovalKeepsBudget(sized, budgeted, before, config.defaultPool, config.processBudget, {name});
    }

    /** `drain_engine`. */
    method DrainEngine(text: string) returns (dropped: bool)
      requires Valid()
      modifies engines
      ensures Valid() && dropped == (text in old(engines.entries))
      ensures engines.entries == old(engines.entries) - {text}
    {
      dropped := engines.DisposeOne(text);
    }

    /** What `DbkitConfig.validate` demands of the defaults and the databases, apart from the settings
        of retries and time-outs. A pool given for a target is not looked at. */
    predicate ConfigIsValid()
      reads config
    {
      && SizedPool(config.defaultPool) && executor.breakerSettings.failureThreshold >= 1
      && forall name :: name in config.databases ==>
        && name != "" && ValidDatabase(config.databases[name])
        && WithinBudget(config.databases[name].budget, MaxConnections(config.databases[name], config.defaultPool))
    }

    lemma ConfigIsValidExactlyWhen()
      ensures ConfigIsValid() <==>
                && config.defaultPool.size >= 0 && config.defaultPool.maxOverflow >= 0
                && executor.breakerSettings.failureThreshold >= 1
                && forall name :: name in config.databases ==>
                     var db := config.databases[name];
                     && name != ""
                     && (forall t :: t in [db.primary] + db.replicas ==> t.url != "" && t.scheme != "")
                     && (db.budget.enforceAtStartup && db.budget.maximumPerProcess.Some? ==>
                           MaxConnections(db, config.defaultPool) <= db.budget.maximumPerProcess.value)
    {}

    /** Create the engines of the required primaries; the first failure is raised and leaves the facade
        unstarted. If the registry does not evict, all of them are there in the end. */
    method Start(now: real, builds: bool) returns (failed: Option<Failure>)
      requires Valid()
      modifies this`started, this`budgeted, engines
      ensures Valid() && started == (old(started) || failed == None)
      ensures old(started) ==> failed == None && engines.Now() == old(engines.Now())
      ensures failed == None && !old(started) ==> ConfigIsValid() && budgeted
      ensures !old(started)
              && !(ConfigIsValid()
                   && WithinBudget(config.processBudget, ProcessCapacity(config.databases, config.defaultPool))) ==>
                failed == Some(ConfigurationError)
      ensures failed == None && !old(started) && (engines.maxEngines == None || !engines.evictLru) ==>
                PrimariesCached(config.databases.Keys)
    {
      if started {
        return None;
      }
      var total := MaxConnectionsPerProcess(config.databases, config.defaultPool);
      if !ConfigIsValid() || !WithinBudget(config.processBudget, total) {
        return Some(ConfigurationError);
      }
      budgeted := true;
      failed := ConnectRequired(now, builds);
      started := failed == None;
    }

    ghost predicate PrimariesCached(names: set<string>)
      requires names <= config.databases.Keys
      reads config, engines
    {
      forall name :: name in names && config.databases[name].primary.required ==> PrimaryText(name) in engines.entries
    }

    method ConnectRequired(now: real, builds: bool) returns (failed: Option<Failure>)
      requires Valid()
      modifies engines
      ensures Valid()
      ensures failed == None && (engines.maxEngines == None || !engines.evictLru) ==>
                PrimariesCached(config.databases.Keys)
    {
      var left := config.databases.Keys;
      while left != {}
        invariant Valid() && left <= config.databases.Keys
        invariant engines.maxEngines == None || !engines.evictLru ==> PrimariesCached(config.databases.Keys - left)
        decreases |left|
      {
        var name :| name in left;
        if config.databases[name].primary.required {
          failed := ConnectPrimary(name, now, builds);
          if failed.Some? {
            return;
          }
        }
        left := left - {name};
      }
      failed := None;
    }

    method Close()
      requires Valid()
      modifies this`started, engines
      ensures Valid() && engines.entries == map[] && !started
    {
      engines.DisposeAll();
      started := false;
    }

    // -- routing --

    /** The replica rotation is that of the configuration. */
    ghost predicate RoutesMatch()
      reads config, replicas
    {
      replicas.Valid() && forall d :: replicas.NamesOf(d) == ReplicaNames(config.databases, d)
    }

    /** `shard` is what the shard resolver answers for the target's key; `pinned` says that a
        read-your-writes scope is active. The route names a target the registry finds. */
    ghost predicate Fits(target: DatabaseTarget, shard: string, pinned: bool, route: ResolvedRoute)
      reads config
    {
      && target.database in config.databases
      && Engine.TargetFor(config.databases, route).Some?
      && route.database == target.database
      && route.shardId == (if target.shardKey.Some? then shard else "default")
      && (route.role.Replica? <==>
            WantsReplica(target) && !pinned && config.databases[target.database].replicas != [])
    }

    method Resolve(target: DatabaseTarget, shard: string, pinned: bool) returns (r: Result<ResolvedRoute>)
      requires RoutesMatch()
      modifies replicas
      ensures RoutesMatch() && (old(Valid()) ==> Valid())
      ensures r == Err(RoutingError) <==> target.database !in config.databases
      ensures r.Ok? <==> target.database in config.databases
      ensures r.Ok? ==> Fits(target, shard, pinned, r.value)
      ensures r.Ok? && (target.role == Write || target.role == PrimaryOnly || pinned) ==> r.value.role == Primary
      ensures r.Ok? && (target.role == Read || target.role == PreferReplica) && !pinned
              && config.databases[target.database].replicas != [] ==>
                r.value.role.Replica? && r.value.role.name in NamesIn(config.databases[target.database].replicas)
    {
      if target.database !in config.databases {
        return Err(RoutingError);
      }
      var db := config.databases[target.database];
      var shardId := if target.shardKey.Some? then shard else "default";
      if WantsReplica(target) && db.replicas != [] && !pinned {
        ghost var names := replicas.NamesOf(target.database);
        assert names == ReplicaNames(config.databases, target.database);
        var name := replicas.Select(target.database);
        if name.Some? {
          ghost var i :| 0 <= i < |names| && names[i] == name.value;
          NamedReplicaIsFound(db.replicas, i);
          return Ok(ResolvedRoute(target.database, shardId, Replica(name.value)));
        }
      }
      r := Ok(ResolvedRoute(target.database, shardId, Primary));
    }

    /** The key this route asks for holds no colon in any name. */
    predicate AllPlain(route: ResolvedRoute)
      reads config
    {
      match Engine.Requested(config.environment, config.databases, route)
      case Some(k) => Plain(k)
      case None => false
    }

    /** The registry's `get`, which leaves everything else alone. */
    method Fetch(route: ResolvedRoute, now: real, builds: bool)
        returns (r: Result<Engine.EngineEntry>, ghost victim: string, ghost gone: seq<nat>)
      requires engines.config == config
      modifies engines
      ensures Engine.GetStep(engines.Rules(), old(engines.Now()), route, now, builds, victim)
           == Some(Engine.Got(r, engines.Now(), gone))
      ensures old(Valid()) ==> Valid()
      ensures old(engines.Coherent()) && r.Ok? ==>
                Engine.IsCurrentFor(config.environment, config.databases, route, r.value)
    {
      ghost var rules, before := engines.Rules(), engines.Now();
      r, victim, gone := engines.Get(route, now, builds);
      if Engine.Coheres(rules, before) && r.Ok? {
        Engine.AnswerIsCurrent(rules, before, route, now, builds, victim);
      }
    }

    /** Route an operation and find or build its engine. In a coherent facade the engine was built
        from the target the configuration gives now, whenever no name contains a colon: for a write the
        primary, for a read a replica if there is one. */
    method EntryFor(target: DatabaseTarget, shard: string, pinned: bool, now: real, builds: bool)
        returns (r: Result<Engine.EngineEntry>, route: Result<ResolvedRoute>, ghost victim: string,
                 ghost gone: seq<nat>)
      requires RoutesMatch() && engines.config == config
      modifies engines, replicas
      ensures RoutesMatch() && (old(Valid()) ==> Valid())
      ensures r == Err(RoutingError) <==> target.database !in config.databases
      ensures route.Ok? <==> target.database in config.databases
      ensures route.Ok? ==>
                && Fits(target, shard, pinned, route.value)
                && Engine.GetStep(engines.Rules(), old(engines.Now()), route.value, now, builds, victim)
                   == Some(Engine.Got(r, engines.Now(), gone))
      ensures route.Err? ==> engines.Now() == old(engines.Now())
      ensures route.Ok? && (target.role == Write || target.role == PrimaryOnly || pinned) ==>
                route.value.role == Primary
      ensures route.Ok? && (target.role == Read || target.role == PreferReplica) && !pinned
              && config.databases[target.database].replicas != [] ==>
                && route.value.role.Replica?
                && route.value.role.name in NamesIn(config.databases[target.database].replicas)
      ensures old(Valid()) && r.Ok? ==>
                route.Ok? && Engine.IsCurrentFor(config.environment, config.databases, route.value, r.value)
      ensures old(Valid()) && r.Ok? && Plain(r.value.key) && AllPlain(route.value) ==>
                var db := config.databases[target.database];
                if target.role == Write || target.role == PrimaryOnly || pinned || db.replicas == [] then
                  r.value.target == db.primary
                else
                  r.value.target in db.replicas && r.value.target.name == route.value.role.name
    {
      victim, gone := "", [];
      ghost var before := engines.Now();
      route := Resolve(target, shard, pinned);
      assert engines.Now() == before;
      if route.Err? {
        return Err(route.error), route, victim, gone;
      }
      r, victim, gone := Fetch(route.value, now, builds);
    }

    // -- eviction while other tasks go on --

    function NamesNow(): Names
      reads this, config
    {
      Names(config.databases.Keys - statics, dynamicLru)
    }

    /** The eviction loop as it interleaves with `ensure_database` calls for unchanged databases: what it
        does to the names is a run of the loop of EvictionWindow. */
    method EvictAmidOthers(cap: nat) returns (ghost windows: seq<seq<string>>)
      requires maxDatabases == Some(cap) && IndexesMatch() && Covers(NamesNow())
      modifies this`dynamicLru, config, engines, executor, replicas
      ensures IndexesMatch() && Covers(NamesNow())
      ensures Evict(old(NamesNow()), cap, windows) == Some(NamesNow())
    {
      ghost var start := NamesNow();
      windows := [];
      LoopStarts(start, cap);
      while |dynamicLru| > cap
        invariant IndexesMatch() && Covers(NamesNow()) && GoesOn(start, cap, windows, NamesNow())
        decreases |NamesNow().registered| + |dynamicLru|
      {
        ghost var before := NamesNow();
        var window := EvictFirst();
        RoundShrinks(before, window);
        LoopContinues(start, cap, windows, before, window);
        windows := windows + [window];
      }
      LoopEnds(start, cap, windows, NamesNow());
    }

    /** The victim leaves the LRU at once, and the map after its disposal, which gives way to others. */
    method EvictFirst() returns (window: seq<string>)
      requires IndexesMatch() && dynamicLru != []
      modifies this`dynamicLru, config, engines, executor, replicas
      ensures IndexesMatch() && NamesNow() == EvictOne(old(NamesNow()), window)
    {
      var victim := dynamicLru[0];
      dynamicLru := dynamicLru[1..];
      window := OthersTouch();
      Remove(victim);
    }

    /** Any number of `ensure_database` calls that find their database unchanged. */
    method OthersTouch() returns (window: seq<string>)
      modifies this`dynamicLru
      ensures NamesNow() == TouchAll(old(NamesNow()), window)
    {
      ghost var start := NamesNow();
      window := [];
      var steps: nat := *;
      while steps > 0
        invariant NamesNow() == TouchAll(start, window)
      {
        var name: string := *;
        if name in config.databases {
          ghost var before := window;
          TouchDynamic(name);
          window := window + [name];
          TouchAllSnoc(start, before, name);
        }
        steps := steps - 1;
      }
    }

    // -- registration while other tasks go on --

    /** The replacement of a registered database as it interleaves: while the old engines are being
        disposed, other tasks request and drain engines and build limiters under the old
        configuration. Everything else matches the new one afterwards; the engines do exactly when
        none was left behind. */
    method ReplaceAmidOthers(name: string, db: DatabaseConfig) returns (ghost window: seq<Action>)
      requires IndexesMatch() && name in config.databases
      modifies config, engines, executor, replicas
      ensures config.databases == old(config.databases)[name := db]
      ensures executor.Coherent() && RoutesMatch()
      ensures Exec(old(engines.Rules()), Purged(old(engines.Now()), name), window) == Some(engines.Now())
      ensures IndexesMatch() <==>
                forall k ::
                  !LeftBehind(old(engines.Rules()), old(engines.built), name, config.databases, engines.Now(), k)
    {
      ghost var rules, start := engines.Rules(), engines.Now();
      window := AwaitDisposal(name);
      ghost var limiters, owners := executor.limiters, executor.owners;
      ForgetResilience(name);
      ResilienceFollows(config.environment, config.databases, config.databases[name := db], name, limiters,
                        owners, executor.owners);
      RegistrationCoherentExactlyWhen(rules, start, name, config.databases[name := db], window);
      SwapIn(name, db);
    }

    /** The old engines leave the table at once; their disposal gives way to other tasks. */
    method AwaitDisposal(name: string) returns (ghost window: seq<Action>)
      requires engines.config == config && executor.config == config && executor.Coherent()
      modifies engines, executor`limiters
      ensures executor.Coherent()
      ensures Exec(engines.Rules(), Purged(old(engines.Now()), name), window) == Some(engines.Now())
    {
      ghost var start := engines.Now();
      var n := engines.DisposeDatabase(name);
      assert engines.Now() == Purged(start, name);
      window := OthersRequest(engines.Rules(), Purged(start, name));
    }

    /** Any number of steps of other tasks at an await point. */
    method OthersRequest(ghost rules: Engine.Setup, ghost start: Engine.Table) returns (ghost window: seq<Action>)
      requires engines.config == config && executor.config == config && executor.Coherent()
      requires rules == engines.Rules() && start == engines.Now()
      modifies engines, executor`limiters
      ensures executor.Coherent() && Exec(rules, start, window) == Some(engines.Now())
    {
      window := [];
      var steps: nat := *;
      while steps > 0
        invariant executor.Coherent() && rules == engines.Rules()
        invariant Exec(rules, start, window) == Some(engines.Now())
      {
        var request: bool := *;
        if request {
          var route: ResolvedRoute, now: real, builds: bool := *, *, *;
          ghost var before := window;
          var _, victim, _ := engines.Get(route, now, builds);
          ExecSnoc(rules, start, before, Action.Get(route, now, builds, victim));
          window := before + [Action.Get(route, now, builds, victim)];
        } else {
          var text: string := *;
          var dropped := engines.DisposeOne(text);
          ExecSnoc(rules, start, window, Drain(text));
          window := window + [Drain(text)];
        }
        var d: string := *;
        if d in config.databases {
          var limits := executor.LimiterFor(d);
        }
        steps := steps - 1;
      }
    }
  }

  lemma AlsoOutside(entries: Engine.Entries, limiters: map<string, Executor.Limits>, name: string, gone: set<string>)
    ensures Outside(Outside(entries, {name}), gone) == Outside(entries, {name} + gone)
    ensures limiters - {name} - gone == limiters - ({name} + gone)
  {}

  lemma StillCapped(databases: Databases, statics: set<string>, lru: seq<string>, name: string)
    requires LruMatches(databases, statics, lru) && name in databases
    ensures |Touched(statics, lru, name)| == |lru|
  {
    if name !in statics {
      assert name in Recency.Keys(lru);
      Recency.OneOccurrence(lru, name);
    }
  }

  lemma UnknownHasNothing(environment: string, databases: Databases, entries: Engine.Entries,
                          limiters: map<string, Executor.Limits>, owners: map<string, EngineKey>, name: string)
    requires Engine.AllCurrent(environment, databases, entries) && Executor.LimitersMatch(databases, limiters)
    requires Executor.BreakersMatch(environment, databases, owners) && name !in databases
    ensures Outside(entries, {name}) == entries && limiters - {name} == limiters
    ensures forall t :: t in owners ==> owners[t].database != name
  {
    forall t | t in entries ensures entries[t].key.database != name {
      assert Engine.Current(environment, databases, t, entries[t]);
    }
  }

  /** When only one database's configuration changes and everything built from it is dropped, the
      rest still matches. */
  lemma IndexesFollow(environment: string, before: Databases, after: Databases, name: string, cap: Option<nat>,
                      entries: Engine.Entries, limiters: map<string, Executor.Limits>,
                      owners: map<string, EngineKey>, kept: map<string, EngineKey>)
    requires Engine.AllCurrent(environment, before, entries) && Engine.WithinCap(cap, entries)
    requires Executor.LimitersMatch(before, limiters) && Executor.BreakersMatch(environment, before, owners)
    requires SameExcept(before, after, {name})
    requires forall t :: t in kept ==> t in owners && kept[t] == owners[t] && kept[t].database != name
    ensures Engine.AllCurrent(environment, after, Outside(entries, {name}))
    ensures Engine.WithinCap(cap, Outside(entries, {name}))
    ensures Executor.LimitersMatch(after, limiters - {name})
    ensures Executor.BreakersMatch(environment, after, kept)
  {
    EnginesAfter(environment, before, after, entries, {name});
    FewerEntries(entries, {name});
    ResilienceFollows(environment, before, after, name, limiters, owners, kept);
  }

  lemma ResilienceFollows(environment: string, before: Databases, after: Databases, name: string,
                          limiters: map<string, Executor.Limits>, owners: map<string, EngineKey>,
                          kept: map<string, EngineKey>)
    requires Executor.LimitersMatch(before, limiters) && Executor.BreakersMatch(environment, before, owners)
    requires SameExcept(before, after, {name})
    requires forall t :: t in kept ==> t in owners && kept[t] == owners[t] && kept[t].database != name
    ensures Executor.LimitersMatch(after, limiters - {name})
    ensures Executor.BreakersMatch(environment, after, kept)
  {}

  lemma FewerEntries(entries: Engine.Entries, gone: set<string>)
    ensures |Outside(entries, gone)| <= |entries|
  {
    var kept := Outside(entries, gone);
    assert kept.Keys <= entries.Keys;
    SubsetCount(kept.Keys, entries.Keys);
    assert |kept| == |kept.Keys| && |entries| == |entries.Keys|;
  }

  lemma NoneGone(databases: Databases, entries: Engine.Entries, limiters: map<string, Executor.Limits>)
    ensures databases - {} == databases && Outside(entries, {}) == entries && limiters - {} == limiters
  {}

  /** One more name is gone. */
  lemma OneMoreGone(databases: Databases, entries: Engine.Entries, limiters: map<string, Executor.Limits>,
                    gone: set<string>, name: string)
    ensures databases - gone - {name} == databases - (gone + {name})
    ensures Outside(Outside(entries, gone), {name}) == Outside(entries, gone + {name})
    ensures limiters - gone - {name} == limiters - (gone + {name})
  {}

  lemma KeysGrow(lru: seq<string>, n: nat)
    requires n < |lru|
    ensures Recency.Keys(lru[..n + 1]) == Recency.Keys(lru[..n]) + {lru[n]}
    ensures lru[n..][0] == lru[n] && lru[n..][1..] == lru[n + 1..]
  {
    assert lru[..n + 1] == lru[..n] + [lru[n]];
    Recency.KeysConcat(lru[..n], [lru[n]]);
  }
}
