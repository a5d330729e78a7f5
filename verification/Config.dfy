/** The configuration tree and its connection budgets (`_core/config.py`). */
module Config {
  import opened Wrappers
  import Limiter

  datatype PoolConfig = PoolConfig(size: int, maxOverflow: int, disablePooling: bool)

  /** `scheme` is what the URL parser reports for `url`, e.g. "postgresql+psycopg". */
  datatype TargetConfig = TargetConfig(url: string, scheme: string, name: string, required: bool,
                                       pool: Option<PoolConfig>)

  datatype Concurrency = Concurrency(databaseLimit: Option<int>, readLimit: Option<int>,
                                     writeLimit: Option<int>, bulkLimit: Option<int>,
                                     expensiveLimit: Option<int>)

  datatype Budget = Budget(maximumPerProcess: Option<int>, enforceAtStartup: bool)

  datatype DatabaseConfig = DatabaseConfig(primary: TargetConfig, replicas: seq<TargetConfig>,
                                           concurrency: Concurrency, budget: Budget)

  type Databases = map<string, DatabaseConfig>

  /** The limits a database's limiter is built from. */
  function LimitsOf(db: DatabaseConfig): map<Limiter.Tier, Option<int>> {
    var c := db.concurrency;
    map[Limiter.Database := c.databaseLimit, Limiter.Reads := c.readLimit,
        Limiter.Writes := c.writeLimit, Limiter.Bulk := c.bulkLimit, Limiter.Expensive := c.expensiveLimit]
  }

  /** The driver named in a URL scheme: what follows the first plus sign, or the whole scheme. */
  function DriverIn(scheme: string, rest: string): string {
    if rest == "" then scheme else if rest[0] == '+' then rest[1..] else DriverIn(scheme, rest[1..])
  }

  function Driver(t: TargetConfig): string {
    DriverIn(t.scheme, t.scheme)
  }

  /** So "postgresql+psycopg" names psycopg, and a scheme without a plus sign itself. */
  lemma DriverIsAfterPlus(t: TargetConfig, dialect: string, driver: string)
    requires '+' !in dialect
    ensures t.scheme == dialect + "+" + driver ==> Driver(t) == driver
    ensures t.scheme == dialect ==> Driver(t) == dialect
  {
    SkipsToPlus(t.scheme, dialect, driver);
  }

  lemma {:induction false} SkipsToPlus(scheme: string, dialect: string, driver: string)
    requires '+' !in dialect
    ensures DriverIn(scheme, dialect + "+" + driver) == driver
    ensures DriverIn(scheme, dialect) == scheme
  {
    var rest := dialect + "+" + driver;
    if dialect == "" {
      assert rest[1..] == driver;
    } else {
      assert rest[1..] == dialect[1..] + "+" + driver && rest[0] == dialect[0];
      SkipsToPlus(scheme, dialect[1..], driver);
    }
  }

  predicate ValidTarget(t: TargetConfig) {
    t.url != "" && t.scheme != ""
  }

  function AllTargets(db: DatabaseConfig): seq<TargetConfig> {
    [db.primary] + db.replicas
  }

  predicate ValidDatabase(db: DatabaseConfig) {
    forall t :: t in AllTargets(db) ==> ValidTarget(t)
  }

  /** A limit that is set and positive bounds how many operations run in its tier. */
  predicate Bounds(limit: Option<int>, running: nat) {
    limit.Some? && limit.value > 0 ==> running <= limit.value
  }

  /** In every run of operations on a database each of its limits bounds the operations it is meant for. */
  lemma ConfiguredLimitsHold(db: DatabaseConfig, actions: seq<Limiter.Action>)
    requires Limiter.Exec(Limiter.Initial(Limiter.CapsOf(LimitsOf(db))), actions).Some?
    ensures var s := Limiter.Exec(Limiter.Initial(Limiter.CapsOf(LimitsOf(db))), actions).value;
            var kinds := Limiter.Started(actions);
            && |s.tasks| == |kinds|
            && Bounds(db.concurrency.databaseLimit, Limiter.RunningIn(s.tasks, kinds, Limiter.Database))
            && Bounds(db.concurrency.readLimit, Limiter.RunningIn(s.tasks, kinds, Limiter.Reads))
            && Bounds(db.concurrency.writeLimit, Limiter.RunningIn(s.tasks, kinds, Limiter.Writes))
            && Bounds(db.concurrency.bulkLimit, Limiter.RunningIn(s.tasks, kinds, Limiter.Bulk))
            && Bounds(db.concurrency.expensiveLimit, Limiter.RunningIn(s.tasks, kinds, Limiter.Expensive))
  {
    TierLimitHolds(db, actions, Limiter.Database);
    TierLimitHolds(db, actions, Limiter.Reads);
    TierLimitHolds(db, actions, Limiter.Writes);
    TierLimitHolds(db, actions, Limiter.Bulk);
    TierLimitHolds(db, actions, Limiter.Expensive);
  }

  lemma TierLimitHolds(db: DatabaseConfig, actions: seq<Limiter.Action>, tier: Limiter.Tier)
    requires Limiter.Exec(Limiter.Initial(Limiter.CapsOf(LimitsOf(db))), actions).Some? && tier in LimitsOf(db)
    ensures var s := Limiter.Exec(Limiter.Initial(Limiter.CapsOf(LimitsOf(db))), actions).value;
            && |s.tasks| == |Limiter.Started(actions)|
            && Bounds(LimitsOf(db)[tier], Limiter.RunningIn(s.tasks, Limiter.Started(actions), tier))
  {
    var caps := Limiter.CapsOf(LimitsOf(db));
    Limiter.AsManyAsStarted(caps, actions);
    if tier in caps {
      Limiter.RunningWithinLimits(caps, actions, tier);
    }
  }

  // ---- connection budgets ------------------------------------------------------------

  function PoolCapacity(p: PoolConfig): int {
    if p.disablePooling then 0 else p.size + p.maxOverflow
  }

  function ResolvedPool(t: TargetConfig, defaults: PoolConfig): PoolConfig {
    match t.pool
    case Some(p) => p
    case None => defaults
  }

  function TargetsCapacity(ts: seq<TargetConfig>, defaults: PoolConfig): int {
    if ts == [] then 0
    else TargetsCapacity(ts[..|ts| - 1], defaults) + PoolCapacity(ResolvedPool(ts[|ts| - 1], defaults))
  }

  function MaxConnections(db: DatabaseConfig, defaults: PoolConfig): int {
    TargetsCapacity(AllTargets(db), defaults)
  }

  /** A target adds the size and overflow of its own pool, or of the default pool, unless that pool is
      delegated to an external pooler; and the primary and every replica count. */
  lemma EveryTargetCounts(db: DatabaseConfig, replica: TargetConfig, defaults: PoolConfig)
    ensures var p := if db.primary.pool.Some? then db.primary.pool.value else defaults;
            MaxConnections(db.(replicas := []), defaults) == if p.disablePooling then 0 else p.size + p.maxOverflow
    ensures var p := if replica.pool.Some? then replica.pool.value else defaults;
            MaxConnections(db.(replicas := db.replicas + [replica]), defaults)
            == MaxConnections(db, defaults) + if p.disablePooling then 0 else p.size + p.maxOverflow
  {
    var alone := [db.primary];
    var none: seq<TargetConfig> := [];
    assert AllTargets(db.(replicas := [])) == alone && alone[..|alone| - 1] == none;
    assert TargetsCapacity(none, defaults) == 0;
    var longer := AllTargets(db.(replicas := db.replicas + [replica]));
    assert longer[..|longer| - 1] == AllTargets(db);
  }

  /** The worst-case connections of a whole configuration map. */
  ghost function ProcessCapacity(databases: Databases, defaults: PoolConfig): int {
    if databases == map[] then 0
    else
      var name :| name in databases;
      MaxConnections(databases[name], defaults) + ProcessCapacity(databases - {name}, defaults)
  }

  /** `enforce_connection_budget`: only a budget that is set and enforced can be exceeded. */
  predicate WithinBudget(b: Budget, capacity: int) {
    b.maximumPerProcess == None || !b.enforceAtStartup || capacity <= b.maximumPerProcess.value
  }

  /** The total does not depend on the order in which databases are counted. */
  lemma {:induction false} CapacityWithout(databases: Databases, defaults: PoolConfig, name: string)
    requires name in databases
    ensures ProcessCapacity(databases, defaults)
            == MaxConnections(databases[name], defaults) + ProcessCapacity(databases - {name}, defaults)
    decreases |databases|
  {
    var first :| first in databases
      && ProcessCapacity(databases, defaults)
         == MaxConnections(databases[first], defaults) + ProcessCapacity(databases - {first}, defaults);
    if first != name {
      CapacityWithout(databases - {first}, defaults, name);
      CapacityWithout(databases - {name}, defaults, first);
      assert databases - {first} - {name} == databases - {name} - {first};
    }
  }

  /** The nested accumulation loops of `max_connections_per_process`. */
  method MaxConnectionsPerProcess(databases: Databases, defaults: PoolConfig) returns (total: int)
    ensures total == ProcessCapacity(databases, defaults)
  {
    total := 0;
    var left := databases;
    while left != map[]
      invariant total + ProcessCapacity(left, defaults) == ProcessCapacity(databases, defaults)
      decreases |left|
    {
      var name :| name in left;
      CapacityWithout(left, defaults, name);
      var targets := AllTargets(left[name]);
      var before := total;
      for i := 0 to |targets|
        invariant total == before + TargetsCapacity(targets[..i], defaults)
      {
        assert targets[..i + 1][..i] == targets[..i];
        total := total + PoolCapacity(ResolvedPool(targets[i], defaults));
      }
      assert targets[..|targets|] == targets;
      left := left - {name};
    }
  }

  predicate SizedPool(p: PoolConfig) {
    p.size >= 0 && p.maxOverflow >= 0
  }

  /** Pools given per target are not range-checked by the validator; these are the sensible ones. */
  predicate Sized(db: DatabaseConfig) {
    forall t :: t in AllTargets(db) && t.pool.Some? ==> SizedPool(t.pool.value)
  }

  lemma {:induction false} SizedCapacity(ts: seq<TargetConfig>, defaults: PoolConfig)
    requires SizedPool(defaults) && forall t :: t in ts && t.pool.Some? ==> SizedPool(t.pool.value)
    ensures TargetsCapacity(ts, defaults) >= 0
  {
    if ts != [] {
      var n := |ts| - 1;
      assert ts[n] in ts;
      SizedCapacity(ts[..n], defaults);
    }
  }

  lemma {:induction false} NonNegativeFrees(databases: Databases, defaults: PoolConfig, gone: set<string>)
    requires forall name :: name in databases ==> MaxConnections(databases[name], defaults) >= 0
    ensures ProcessCapacity(databases - gone, defaults) <= ProcessCapacity(databases, defaults)
    decreases |gone|
  {
    if gone == {} {
      assert databases - gone == databases;
    } else {
      var name :| name in gone;
      var rest := databases - {name};
      NonNegativeFrees(rest, defaults, gone - {name});
      assert rest - (gone - {name}) == databases - gone;
      if name in databases {
        CapacityWithout(databases, defaults, name);
      } else {
        assert rest == databases;
      }
    }
  }

  /** Dropping databases never raises the total, whichever they are, exactly when no database has a
      negative capacity. */
  lemma DroppingFreesExactlyWhen(databases: Databases, defaults: PoolConfig)
    ensures (forall gone: set<string> :: ProcessCapacity(databases - gone, defaults) <= ProcessCapacity(databases, defaults))
            <==> forall name :: name in databases ==> MaxConnections(databases[name], defaults) >= 0
  {
    if forall name :: name in databases ==> MaxConnections(databases[name], defaults) >= 0 {
      forall gone: set<string>
        ensures ProcessCapacity(databases - gone, defaults) <= ProcessCapacity(databases, defaults)
      {
        NonNegativeFrees(databases, defaults, gone);
      }
    } else {
      var name :| name in databases && MaxConnections(databases[name], defaults) < 0;
      CapacityWithout(databases, defaults, name);
      assert ProcessCapacity(databases - {name}, defaults) > ProcessCapacity(databases, defaults);
    }
  }

  /** Dropping databases with sensible pools never raises the total. */
  lemma EvictionFreesCapacity(databases: Databases, defaults: PoolConfig, gone: set<string>)
    requires SizedPool(defaults) && forall name :: name in databases ==> Sized(databases[name])
    ensures ProcessCapacity(databases - gone, defaults) <= ProcessCapacity(databases, defaults)
  {
    forall name | name in databases ensures MaxConnections(databases[name], defaults) >= 0 {
      SizedCapacity(AllTargets(databases[name]), defaults);
    }
    NonNegativeFrees(databases, defaults, gone);
  }

  /** Without that, dropping a database can raise the total: a negative pool hides capacity. */
  lemma NegativePoolHidesCapacity() returns (databases: Databases, defaults: PoolConfig)
    ensures ProcessCapacity(databases - {"b"}, defaults) > ProcessCapacity(databases, defaults)
  {
    defaults := PoolConfig(10, 5, false);
    var none := Concurrency(None, None, None, None, None);
    var normal := TargetConfig("u", "postgresql", "primary", true, None);
    var negative := normal.(pool := Some(PoolConfig(-8, 0, false)));
    var free := Budget(None, false);
    var a, b := DatabaseConfig(normal, [], none, free), DatabaseConfig(negative, [], none, free);
    databases := map["a" := a, "b" := b];
    CapacityWithout(databases, defaults, "b");
    assert AllTargets(b) == [negative] && [negative][..0] == [];
    assert TargetsCapacity([negative], defaults) == -8;
  }

  /** Replacing or adding one database. */
  lemma CapacityWith(databases: Databases, defaults: PoolConfig, name: string, db: DatabaseConfig)
    ensures ProcessCapacity(databases[name := db], defaults)
            == MaxConnections(db, defaults) + ProcessCapacity(databases - {name}, defaults)
  {
    CapacityWithout(databases[name := db], defaults, name);
    assert databases[name := db] - {name} == databases - {name};
  }

  /** The configuration object the facade, the registry and the executor share. Its databases are
      swapped as a whole. */
  class LiveConfig {
    const environment: string
    const defaultPool: PoolConfig
    const processBudget: Budget
    var databases: Databases

    constructor (environment: string, defaultPool: PoolConfig, processBudget: Budget, databases: Databases)
      ensures this.environment == environment && this.defaultPool == defaultPool
      ensures this.processBudget == processBudget && this.databases == databases
    {
      this.environment, this.defaultPool := environment, defaultPool;
      this.processBudget, this.databases := processBudget, databases;
    }
  }
}
