/** The engine registry (`_async/engine.py`): one engine per key, built lazily, capped, evicted
    least-recently-used first. */
module Engine {
  import opened Wrappers
  import opened Config
  import opened Keys
  import opened Routing
  import Recency
  import opened Lru

  /** `engine` identifies the engine object: the n-th one ever built has number n. */
  datatype EngineEntry = EngineEntry(key: EngineKey, target: TargetConfig, engine: nat, lastUsed: real)

  type Entries = map<string, EngineEntry>

  // ---- from a route to a key -----------------------------------------------------------

  /** The first configured replica of that name. */
  function FindReplica(replicas: seq<TargetConfig>, name: string): (found: Option<TargetConfig>)
    ensures found.Some? ==> found.value in replicas && found.value.name == name
    ensures found == None <==> forall t :: t in replicas ==> t.name != name
  {
    if replicas == [] then None
    else if replicas[0].name == name then Some(replicas[0])
    else FindReplica(replicas[1..], name)
  }

  /** None stands for the routing error. */
  function TargetFor(databases: Databases, route: ResolvedRoute): Option<TargetConfig> {
    if route.database !in databases then None
    else match route.role
         case Replica(name) => FindReplica(databases[route.database].replicas, name)
         case Primary => Some(databases[route.database].primary)
  }

  function KeyFor(environment: string, route: ResolvedRoute, target: TargetConfig): EngineKey {
    EngineKey(environment, route.database, route.shardId, route.role, Driver(target))
  }

  function RouteOf(k: EngineKey): ResolvedRoute {
    ResolvedRoute(k.database, k.shardId, k.role)
  }

  /** The cached engine is the one the current configuration asks for under its key. */
  predicate Current(environment: string, databases: Databases, text: string, e: EngineEntry) {
    && text == KeyText(e.key)
    && TargetFor(databases, RouteOf(e.key)) == Some(e.target)
    && e.key == KeyFor(environment, RouteOf(e.key), e.target)
  }

  predicate AllCurrent(environment: string, databases: Databases, entries: Entries) {
    forall text :: text in entries ==> Current(environment, databases, text, entries[text])
  }

  /** The key a route asks for, when its target exists. */
  function Requested(environment: string, databases: Databases, route: ResolvedRoute): Option<EngineKey> {
    match TargetFor(databases, route)
    case Some(t) => Some(KeyFor(environment, route, t))
    case None => None
  }

  /** What is cached under the text of a requested key is what was requested, if no name contains a
      colon. */
  lemma CachedIsRequested(environment: string, databases: Databases, route: ResolvedRoute, e: EngineEntry)
    requires Requested(environment, databases, route).Some?
    requires var k := Requested(environment, databases, route).value;
             Current(environment, databases, KeyText(k), e) && Plain(k) && Plain(e.key)
    ensures e.key == Requested(environment, databases, route).value
    ensures TargetFor(databases, route) == Some(e.target)
  {
    KeyTextIsInjective(Requested(environment, databases, route).value, e.key);
  }

  // ---- the registry -----------------------------------------------------------------------

  function StampsOf(entries: Entries): Stamps<string> {
    map k | k in entries :: entries[k].lastUsed
  }

  function EntriesOf(entries: Entries, database: string): set<string> {
    set k | k in entries && entries[k].key.database == database
  }

  predicate WithinCap(cap: Option<nat>, entries: Entries) {
    cap.Some? ==> |entries| <= if cap.value == 0 then 1 else cap.value
  }

  predicate Full(cap: Option<nat>, entries: Entries) {
    cap.Some? && |entries| >= cap.value
  }

  // ---- one `get` ---------------------------------------------------------------------------

  /** What a registry works with; the databases are those configured at the moment. */
  datatype Setup = Setup(environment: string, databases: Databases, cap: Option<nat>, evictLru: bool)

  /** `built` is how many engines were ever built. */
  datatype Table = Table(entries: Entries, built: nat)

  /** `gone` are the engines disposed by the call. */
  datatype Got = Got(answer: Result<EngineEntry>, table: Table, gone: seq<nat>)

  /** Making room for one more entry; `victim` has to be an entry with the oldest stamp. */
  function RoomIn(cap: Option<nat>, entries: Entries, victim: string): Option<Entries> {
    if !Full(cap, entries) || entries == map[] then Some(entries)
    else if Oldest(StampsOf(entries), victim) then Some(entries - {victim})
    else None
  }

  /** The part of `get` under the lock, and the disposal after it. A build that fails leaves the
      victim popped but not disposed. */
  function CreateStep(c: Setup, t: Table, key: EngineKey, target: TargetConfig, now: real, builds: bool,
                      victim: string): Option<Got>
  {
    if Full(c.cap, t.entries) && !c.evictLru then Some(Got(Err(ConfigurationError), t, []))
    else match RoomIn(c.cap, t.entries, victim)
         case None => None
         case Some(kept) =>
           if !builds then Some(Got(Err(ConfigurationError), t.(entries := kept), []))
           else
             var e := EngineEntry(key, target, t.built, now);
             var gone := if Full(c.cap, t.entries) && victim in t.entries then [t.entries[victim].engine] else [];
             Some(Got(Ok(e), Table(kept[KeyText(key) := e], t.built + 1), gone))
  }

  /** One `get`; `builds` says whether creating an engine for the target succeeds. None: there is an
      older entry than `victim`. */
  function GetStep(c: Setup, t: Table, route: ResolvedRoute, now: real, builds: bool, victim: string): Option<Got> {
    match TargetFor(c.databases, route)
    case None => Some(Got(Err(RoutingError), t, []))
    case Some(target) =>
      var key := KeyFor(c.environment, route, target);
      var text := KeyText(key);
      if text in t.entries then
        var hit := t.entries[text].(lastUsed := now);
        Some(Got(Ok(hit), t.(entries := t.entries[text := hit]), []))
      else CreateStep(c, t, key, target, now, builds, victim)
  }

  /** Every entry is current and there are not too many. */
  predicate Coheres(c: Setup, t: Table) {
    AllCurrent(c.environment, c.databases, t.entries) && WithinCap(c.cap, t.entries)
  }

  lemma RoomIsThere(c: Setup, t: Table, victim: string, kept: Entries)
    requires Coheres(c, t) && RoomIn(c.cap, t.entries, victim) == Some(kept)
    ensures AllCurrent(c.environment, c.databases, kept) && kept.Keys <= t.entries.Keys
    ensures c.cap.Some? ==> |kept| + 1 <= if c.cap.value == 0 then 1 else c.cap.value
  {
    if kept != t.entries {
      assert kept.Keys == t.entries.Keys - {victim};
      assert |kept.Keys| == |t.entries.Keys| - 1;
      forall k | k in kept ensures Current(c.environment, c.databases, k, kept[k]) {
        assert kept[k] == t.entries[k];
      }
    }
  }

  lemma InsertedIsCurrent(c: Setup, kept: Entries, text: string, e: EngineEntry)
    requires AllCurrent(c.environment, c.databases, kept) && Current(c.environment, c.databases, text, e)
    requires (text in kept && WithinCap(c.cap, kept))
             || (c.cap.Some? ==> |kept| + 1 <= if c.cap.value == 0 then 1 else c.cap.value)
    ensures AllCurrent(c.environment, c.databases, kept[text := e]) && WithinCap(c.cap, kept[text := e])
  {
    var entries := kept[text := e];
    assert entries.Keys == kept.Keys + {text};
    assert text in kept ==> entries.Keys == kept.Keys;
    forall k | k in entries ensures Current(c.environment, c.databases, k, entries[k]) {
      if k != text {
        assert entries[k] == kept[k];
      }
    }
  }

  /** A `get` keeps the table coherent, and what it answers is the engine the configuration asks for
      under the requested text. */
  lemma GetKeepsCoherence(c: Setup, t: Table, route: ResolvedRoute, now: real, builds: bool, victim: string)
    requires Coheres(c, t) && GetStep(c, t, route, now, builds, victim).Some?
    ensures var got := GetStep(c, t, route, now, builds, victim).value;
            && Coheres(c, got.table)
            && (got.answer.Ok? ==>
                  && Requested(c.environment, c.databases, route).Some?
                  && var text := KeyText(Requested(c.environment, c.databases, route).value);
                     && text in got.table.entries && got.table.entries[text] == got.answer.value
                     && Current(c.environment, c.databases, text, got.answer.value))
  {
    var target := TargetFor(c.databases, route);
    if target.Some? {
      var key := KeyFor(c.environment, route, target.value);
      var text := KeyText(key);
      assert RouteOf(key) == route;
      if text in t.entries {
        var hit := t.entries[text].(lastUsed := now);
        assert Current(c.environment, c.databases, text, t.entries[text]);
        InsertedIsCurrent(c, t.entries, text, hit);
      } else {
        CreateKeepsCoherence(c, t, key, target.value, now, builds, victim);
      }
    }
  }

  /** An engine for this route, built from the target the configuration gives: the very one asked for
      when no name contains a colon. */
  predicate IsCurrentFor(environment: string, databases: Databases, route: ResolvedRoute, e: EngineEntry) {
    var wanted := Requested(environment, databases, route);
    && wanted.Some?
    && (Plain(e.key) && Plain(wanted.value) ==>
          e.key == wanted.value && TargetFor(databases, route) == Some(e.target))
  }

  lemma AnswerIsCurrent(c: Setup, t: Table, route: ResolvedRoute, now: real, builds: bool, victim: string)
    requires Coheres(c, t) && GetStep(c, t, route, now, builds, victim).Some?
    requires GetStep(c, t, route, now, builds, victim).value.answer.Ok?
    ensures var e := GetStep(c, t, route, now, builds, victim).value.answer.value;
            && IsCurrentFor(c.environment, c.databases, route, e)
            && (Plain(e.key) && Plain(Requested(c.environment, c.databases, route).value) ==>
                  && e.key == Requested(c.environment, c.databases, route).value
                  && TargetFor(c.databases, route) == Some(e.target))
  {
    var e := GetStep(c, t, route, now, builds, victim).value.answer.value;
    GetKeepsCoherence(c, t, route, now, builds, victim);
    if Plain(e.key) && Plain(Requested(c.environment, c.databases, route).value) {
      CachedIsRequested(c.environment, c.databases, route, e);
    }
  }

  /** What is answered is in the table under the requested text, and without eviction nothing leaves. */
  lemma GetCaches(c: Setup, t: Table, route: ResolvedRoute, now: real, builds: bool, victim: string)
    requires GetStep(c, t, route, now, builds, victim).Some?
    ensures var got := GetStep(c, t, route, now, builds, victim).value;
            && (got.answer == Err(RoutingError) <==> TargetFor(c.databases, route) == None)
            && (got.answer.Ok? ==>
                  && Requested(c.environment, c.databases, route).Some?
                  && KeyText(Requested(c.environment, c.databases, route).value) in got.table.entries)
            && (c.cap == None || !c.evictLru ==> t.entries.Keys <= got.table.entries.Keys)
  {}

  lemma CreateKeepsCoherence(c: Setup, t: Table, key: EngineKey, target: TargetConfig, now: real, builds: bool,
                             victim: string)
    requires Coheres(c, t) && CreateStep(c, t, key, target, now, builds, victim).Some?
    requires Current(c.environment, c.databases, KeyText(key), EngineEntry(key, target, t.built, now))
    ensures Coheres(c, CreateStep(c, t, key, target, now, builds, victim).value.table)
  {
    if !Full(c.cap, t.entries) || c.evictLru {
      var kept := RoomIn(c.cap, t.entries, victim).value;
      RoomIsThere(c, t, victim, kept);
      if builds {
        InsertedIsCurrent(c, kept, KeyText(key), EngineEntry(key, target, t.built, now));
      }
    }
  }

  lemma DropKeepsCoherence(c: Setup, t: Table, text: string)
    requires Coheres(c, t)
    ensures Coheres(c, t.(entries := t.entries - {text}))
  {
    var kept := t.entries - {text};
    assert kept.Keys == t.entries.Keys - {text};
    assert |kept.Keys| <= |t.entries.Keys|;
    forall k | k in kept ensures Current(c.environment, c.databases, k, kept[k]) {
      assert kept[k] == t.entries[k];
    }
  }

  // ---- many calls ------------------------------------------------------------------------------

  /** A `get`, and the databases configured at the time. */
  datatype Call = Call(databases: Databases, route: ResolvedRoute, now: real, builds: bool, victim: string)

  function Get(c: Setup, t: Table, call: Call): Option<Got> {
    GetStep(c.(databases := call.databases), t, call.route, call.now, call.builds, call.victim)
  }

  function GetAll(c: Setup, t: Table, calls: seq<Call>): Option<Table>
    decreases |calls|
  {
    if calls == [] then Some(t)
    else match Get(c, t, calls[0])
         case Some(got) => GetAll(c, got.table, calls[1..])
         case None => None
  }

  predicate Later(calls: seq<Call>, earlier: real)
    decreases |calls|
  {
    calls == [] || (earlier < calls[0].now && Later(calls[1..], calls[0].now))
  }

  /** The request a call makes to the cache of texts; a call for an unknown target makes none. */
  function RequestOf(c: Setup, t: Table, call: Call): seq<Request<string>>
    requires Get(c, t, call).Some?
  {
    match Requested(c.environment, call.databases, call.route)
    case None => []
    case Some(key) => [Request(KeyText(key), call.now, Get(c, t, call).value.answer.Ok?, call.victim)]
  }

  function RequestsOf(c: Setup, t: Table, calls: seq<Call>): seq<Request<string>>
    requires GetAll(c, t, calls).Some?
    decreases |calls|
  {
    if calls == [] then []
    else RequestOf(c, t, calls[0]) + RequestsOf(c, Get(c, t, calls[0]).value.table, calls[1..])
  }

  function RulesOf(c: Setup): Rules {
    Rules(c.cap, c.evictLru)
  }

  lemma StampsCount(entries: Entries)
    ensures StampsOf(entries).Keys == entries.Keys && |StampsOf(entries)| == |entries|
    ensures StampsOf(entries) == map[] <==> entries == map[]
  {
    assert StampsOf(entries).Keys == entries.Keys;
    assert |StampsOf(entries)| == |StampsOf(entries).Keys| && |entries| == |entries.Keys|;
  }

  lemma StampsChange(entries: Entries, text: string, e: EngineEntry)
    ensures StampsOf(entries[text := e]) == StampsOf(entries)[text := e.lastUsed]
    ensures StampsOf(entries - {text}) == StampsOf(entries) - {text}
  {}

  lemma CreateIsServed(c: Setup, t: Table, key: EngineKey, target: TargetConfig, now: real, builds: bool,
                       victim: string)
    requires KeyText(key) !in t.entries && CreateStep(c, t, key, target, now, builds, victim).Some?
    ensures var got := CreateStep(c, t, key, target, now, builds, victim).value;
            Serve(RulesOf(c), StampsOf(t.entries), Request(KeyText(key), now, got.answer.Ok?, victim))
            == Some(StampsOf(got.table.entries))
  {
    var e := EngineEntry(key, target, t.built, now);
    StampsCount(t.entries);
    if !Full(c.cap, t.entries) || t.entries == map[] {
      StampsChange(t.entries, KeyText(key), e);
    } else if c.evictLru {
      StampsChange(t.entries, victim, e);
      StampsChange(t.entries - {victim}, KeyText(key), e);
    }
  }

  /** A call is one request to a bounded cache. */
  lemma GetIsLruStep(c: Setup, t: Table, call: Call)
    requires Get(c, t, call).Some?
    ensures ServeAll(RulesOf(c), StampsOf(t.entries), RequestOf(c, t, call))
            == Some(StampsOf(Get(c, t, call).value.table.entries))
  {
    var key := Requested(c.environment, call.databases, call.route);
    if key.Some? {
      var r, after := RequestOf(c, t, call)[0], StampsOf(Get(c, t, call).value.table.entries);
      if r.key in t.entries {
        StampsChange(t.entries, r.key, t.entries[r.key].(lastUsed := call.now));
      } else {
        CreateIsServed(c.(databases := call.databases), t, key.value, TargetFor(call.databases, call.route).value,
                       call.now, call.builds, call.victim);
      }
      OneIsServed(RulesOf(c), StampsOf(t.entries), r, after);
    }
  }

  lemma OneIsServed<K>(c: Rules, before: Stamps<K>, r: Request<K>, after: Stamps<K>)
    requires Serve(c, before, r) == Some(after)
    ensures ServeAll(c, before, [r]) == Some(after)
  {
    assert [r][1..] == [];
  }

  lemma {:induction false} ServeAllConcat<K>(c: Rules, before: Stamps<K>, a: seq<Request<K>>, b: seq<Request<K>>)
    requires ServeAll(c, before, a).Some?
    ensures ServeAll(c, before, a + b) == ServeAll(c, ServeAll(c, before, a).value, b)
    decreases |a|
  {
    if a == [] {
      assert a + b == b;
    } else {
      assert (a + b)[0] == a[0] && (a + b)[1..] == a[1..] + b;
      ServeAllConcat(c, Serve(c, before, a[0]).value, a[1..], b);
    }
  }

  lemma {:induction false} CallsAreServed(c: Setup, t: Table, calls: seq<Call>, earlier: real)
    requires GetAll(c, t, calls).Some? && Later(calls, earlier)
    ensures ServeAll(RulesOf(c), StampsOf(t.entries), RequestsOf(c, t, calls))
            == Some(StampsOf(GetAll(c, t, calls).value.entries))
    ensures Lru.Rising(RequestsOf(c, t, calls), earlier)
    decreases |calls|
  {
    if calls != [] {
      var next, r := Get(c, t, calls[0]).value.table, RequestOf(c, t, calls[0]);
      GetIsLruStep(c, t, calls[0]);
      CallsAreServed(c, next, calls[1..], calls[0].now);
      ServeAllConcat(RulesOf(c), StampsOf(t.entries), r, RequestsOf(c, next, calls[1..]));
      assert r != [] ==> (r + RequestsOf(c, next, calls[1..]))[1..] == RequestsOf(c, next, calls[1..]);
      RisesEarlier(RequestsOf(c, next, calls[1..]), earlier, calls[0].now);
      assert r == [] ==> r + RequestsOf(c, next, calls[1..]) == RequestsOf(c, next, calls[1..]);
    }
  }

  lemma RisesEarlier<K>(requests: seq<Request<K>>, earlier: real, now: real)
    requires Lru.Rising(requests, now) && earlier <= now
    ensures Lru.Rising(requests, earlier)
  {}

  /** Main result. After any calls at rising times, whatever the configuration does meanwhile and
      whichever builds fail, the texts in the table are the most recently answered ones, as many as
      there are entries; and all the while as many as the cap allows, exactly when no call evicts for an
      engine that then cannot be built. */
  lemma RegistryHoldsMostRecent(c: Setup, calls: seq<Call>, t: Table)
    requires calls != [] ==> Later(calls, calls[0].now - 1.0)
    requires GetAll(c, Table(map[], 0), calls) == Some(t)
    ensures var requests := RequestsOf(c, Table(map[], 0), calls);
            && t.entries.Keys == Recency.Keys(Recency.Recent(Answered(requests), |t.entries|))
            && WithinCap(c.cap, t.entries)
            && ServeAll(RulesOf(c), map[], requests).Some?
            && (AlwaysMostRecent(RulesOf(c), map[], [], requests) <==> NeverInVain(RulesOf(c), map[], requests))
  {
    var requests := RequestsOf(c, Table(map[], 0), calls);
    var start := if calls == [] then 0.0 else calls[0].now - 1.0;
    StampsCount(map[]);
    StampsCount(t.entries);
    CallsAreServed(c, Table(map[], 0), calls, start);
    LiveKeysAreMostRecent(RulesOf(c), requests, StampsOf(t.entries));
    MostRecentExactlyWhen(RulesOf(c), requests, StampsOf(t.entries));
  }

  // ---- names with colons ---------------------------------------------------------------------

  /** A registry with a cap of zero that does not evict never builds anything. */
  predicate CanBuild(c: Setup) {
    c.cap == None || c.cap.value > 0 || c.evictLru
  }

  /** From an empty registry, the second request is answered with the engine built for the first. */
  predicate SecondGetsFirst(c: Setup, first: ResolvedRoute, second: ResolvedRoute) {
    var f := GetStep(c, Table(map[], 0), first, 0.0, true, "");
    && f.Some? && f.value.answer.Ok?
    && var s := GetStep(c, f.value.table, second, 1.0, true, "");
       s.Some? && s.value.answer.Ok? && s.value.answer.value.engine == f.value.answer.value.engine
  }

  predicate OneOfEach(a: string, b: string, first: ResolvedRoute, second: ResolvedRoute) {
    first.database == a && second.database == b
  }

  /** What follows the shard in the key of a configured target. */
  function TailOf(c: Setup, name: string, role: Role): Option<string> {
    match TargetFor(c.databases, ResolvedRoute(name, "", role))
    case Some(t) => Some(Tail(role, Driver(t)))
    case None => None
  }

  predicate RolesFit(c: Setup, a: string, b: string, first: Role, second: Role) {
    && TailOf(c, a, first).Some? && TailOf(c, b, second).Some?
    && TailsFit(TailOf(c, a, first).value, TailOf(c, b, second).value)
  }

  /** Requests for two databases can be answered with one engine, built for the first of them, exactly
      when the names are confusable and, for some target of each, one of the two keys ends like the other
      after its shard. */
  lemma WrongEngineExactlyWhen(c: Setup, a: string, b: string)
    requires a != b && CanBuild(c)
    ensures (exists first, second :: OneOfEach(a, b, first, second) && SecondGetsFirst(c, first, second))
            <==> Confusable(a, b) && exists r, s :: RolesFit(c, a, b, r, s)
  {
    forall first, second | OneOfEach(a, b, first, second) && SecondGetsFirst(c, first, second)
      ensures Confusable(a, b) && RolesFit(c, a, b, first.role, second.role)
    {
      var k, l := Requested(c.environment, c.databases, first).value, Requested(c.environment, c.databases, second);
      assert l.Some?;
      SecondIsHit(c, first, second);
      SharedTextConfuses(c.environment, a, b, k, l.value);
      SharedTailsFit(k, l.value);
    }
    if Confusable(a, b) && exists r, s :: RolesFit(c, a, b, r, s) {
      var r, s :| RolesFit(c, a, b, r, s);
      SharedTextServesBoth(c, a, b, r, s);
    }
  }

  lemma SecondIsHit(c: Setup, first: ResolvedRoute, second: ResolvedRoute)
    requires SecondGetsFirst(c, first, second)
    ensures Requested(c.environment, c.databases, first).Some? && Requested(c.environment, c.databases, second).Some?
    ensures KeyText(Requested(c.environment, c.databases, first).value)
            == KeyText(Requested(c.environment, c.databases, second).value)
  {}

  lemma SharedTextServesBoth(c: Setup, a: string, b: string, r: Role, s: Role)
    requires CanBuild(c) && Confusable(a, b) && RolesFit(c, a, b, r, s)
    ensures exists first, second :: OneOfEach(a, b, first, second) && SecondGetsFirst(c, first, second)
  {
    var d := Driver(TargetFor(c.databases, ResolvedRoute(a, "", r)).value);
    var e := Driver(TargetFor(c.databases, ResolvedRoute(b, "", s)).value);
    var k, l := ConfusedKeys(c.environment, a, b, r, d, s, e);
    assert SecondGetsFirst(c, RouteOf(k), RouteOf(l));
    assert OneOfEach(a, b, RouteOf(k), RouteOf(l));
  }

  /** And then the second database is served the target of the first. */
  lemma WrongTargetServed(c: Setup, first: ResolvedRoute, second: ResolvedRoute)
    requires SecondGetsFirst(c, first, second)
    ensures var f := GetStep(c, Table(map[], 0), first, 0.0, true, "").value;
            Some(GetStep(c, f.table, second, 1.0, true, "").value.answer.value.target) == TargetFor(c.databases, first)
  {}

  class AsyncEngineRegistry {
    const config: LiveConfig
    const maxEngines: Option<nat>
    const evictLru: bool
    var entries: Entries
    var built: nat                // how many engines were ever built
    ghost var disposed: seq<nat>  // the engines disposed so far, in order

    /** The rules of the moment. */
    function Rules(): Setup
      reads config
    {
      Setup(config.environment, config.databases, maxEngines, evictLru)
    }

    function Now(): Table
      reads this
    {
      Table(entries, built)
    }

    predicate Coherent()
      reads this, config
    {
      Coheres(Rules(), Now())
    }

    constructor (config: LiveConfig, maxEngines: Option<nat>, evictLru: bool)
      ensures Coherent() && entries == map[] && disposed == [] && built == 0
      ensures this.config == config && this.maxEngines == maxEngines && this.evictLru == evictLru
    {
      this.config, this.maxEngines, this.evictLru := config, maxEngines, evictLru;
      entries, built, disposed := map[], 0, [];
    }

    /** `builds` says whether creating an engine for the target succeeds; `victim` is the text of the
        entry that is evicted, if one is, and `gone` are the engines disposed. */
    method Get(route: ResolvedRoute, now: real, builds: bool)
        returns (r: Result<EngineEntry>, ghost victim: string, ghost gone: seq<nat>)
      modifies this
      ensures GetStep(Rules(), old(Now()), route, now, builds, victim) == Some(Got(r, Now(), gone))
      ensures disposed == old(disposed) + gone
      ensures old(Coherent()) ==> Coherent()
    {
      victim, gone := "", [];
      ghost var before := Now();
      var target := TargetFor(config.databases, route);
      if target == None {
        return Err(RoutingError), victim, gone;
      }
      var key := KeyFor(config.environment, route, target.value);
      var keyStr := KeyText(key);
      if keyStr in entries {
        var hit := entries[keyStr].(lastUsed := now);
        entries := entries[keyStr := hit];
        r := Ok(hit);
      } else {
        r, victim, gone := Create(key, target.value, now, builds);
      }
      if Coheres(Rules(), before) {
        GetKeepsCoherence(Rules(), before, route, now, builds, victim);
      }
    }

    method Create(key: EngineKey, target: TargetConfig, now: real, builds: bool)
        returns (r: Result<EngineEntry>, ghost victim: string, ghost gone: seq<nat>)
      modifies this
      ensures CreateStep(Rules(), old(Now()), key, target, now, builds, victim) == Some(Got(r, Now(), gone))
      ensures disposed == old(disposed) + gone
    {
      victim, gone := "", [];
      if maxEngines.Some? && |entries| >= maxEngines.value && !evictLru {
        return Err(ConfigurationError), victim, gone;
      }
      var popped;
      ghost var before := Now();
      popped, victim := MakeRoom();
      assert RoomIn(maxEngines, before.entries, victim) == Some(entries) && built == before.built;
      if !builds {
        return Err(ConfigurationError), victim, gone;
      }
      var entry := EngineEntry(key, target, built, now);
      entries, built := entries[KeyText(key) := entry], built + 1;
      if popped.Some? {
        gone := [popped.value.engine];
        disposed := disposed + [popped.value.engine];
      }
      r := Ok(entry);
    }

    method MakeRoom() returns (popped: Option<EngineEntry>, ghost victim: string)
      modifies this`entries
      ensures RoomIn(maxEngines, old(entries), victim) == Some(entries)
      ensures popped == if Full(maxEngines, old(entries)) && victim in old(entries) then Some(old(entries)[victim])
                        else None
    {
      popped, victim := None, "";
      if maxEngines.Some? && |entries| >= maxEngines.value {
        popped, victim := PopLru();
      }
    }

    /** Take out the entry with the oldest stamp, if there is one. */
    method PopLru() returns (popped: Option<EngineEntry>, ghost victim: string)
      modifies this`entries
      ensures old(entries) == map[] ==> popped == None && entries == map[] && victim !in old(entries)
      ensures old(entries) != map[] ==>
                && Oldest(StampsOf(old(entries)), victim) && popped == Some(old(entries)[victim])
                && entries == old(entries) - {victim}
    {
      victim := "";
      if entries == map[] {
        return None, victim;
      }
      var oldest :| oldest in entries;
      var left := entries.Keys - {oldest};
      while left != {}
        invariant left <= entries.Keys && oldest in entries
        invariant forall k :: k in entries && k !in left ==> entries[oldest].lastUsed <= entries[k].lastUsed
        decreases |left|
      {
        var k :| k in left;
        if entries[k].lastUsed < entries[oldest].lastUsed {
          oldest := k;
        }
        left := left - {k};
      }
      assert Oldest(StampsOf(entries), oldest);
      popped, victim := Some(entries[oldest]), oldest;
      entries := entries - {oldest};
    }

    /** `drain_engine`: the next request for this key builds a new engine. */
    method DisposeOne(text: string) returns (dropped: bool)
      modifies this`entries, this`disposed
      ensures old(Coherent()) ==> Coherent()
      ensures dropped == (text in old(entries)) && entries == old(entries) - {text}
      ensures disposed == if dropped then old(disposed) + [old(entries)[text].engine] else old(disposed)
    {
      dropped := text in entries;
      if Coheres(Rules(), Now()) {
        DropKeepsCoherence(Rules(), Now(), text);
      }
      if dropped {
        disposed := disposed + [entries[text].engine];
        entries := entries - {text};
      }
    }

    /** Drop every engine of one database. Only what the configuration says about that database may
        differ from what the entries were built from. */
    method DisposeDatabase(database: string) returns (count: nat)
      modifies this`entries, this`disposed
      ensures entries == old(entries) - EntriesOf(old(entries), database)
      ensures count == |EntriesOf(old(entries), database)|
      ensures |disposed| == |old(disposed)| + count
      ensures forall k :: k in EntriesOf(old(entries), database) ==> old(entries)[k].engine in disposed
      ensures old(disposed) <= disposed
    {
      var victims := EntriesOf(entries, database);
      count := |victims|;
      var start := entries;
      entries := entries - victims;
      var left := victims;
      while left != {}
        invariant left <= victims
        invariant entries == start - victims
        invariant old(disposed) <= disposed
        invariant |disposed| + |left| == |old(disposed)| + |victims|
        invariant forall k :: k in victims && k !in left ==> start[k].engine in disposed
        decreases |left|
      {
        var k :| k in left;
        disposed := disposed + [start[k].engine];
        left := left - {k};
      }
    }

    method DisposeAll()
      modifies this`entries, this`disposed
      ensures entries == map[] && Coherent()
      ensures old(disposed) <= disposed && |disposed| == |old(disposed)| + |old(entries)|
      ensures forall k :: k in old(entries) ==> old(entries)[k].engine in disposed
    {
      var left := entries;
      entries := map[];
      while left != map[]
        invariant entries == map[] && left.Keys <= old(entries).Keys
        invariant forall k :: k in left ==> left[k] == old(entries)[k]
        invariant old(disposed) <= disposed && |disposed| + |left| == |old(disposed)| + |old(entries)|
        invariant forall k :: k in old(entries) && k !in left ==> old(entries)[k].engine in disposed
        decreases |left|
      {
        var k :| k in left;
        disposed := disposed + [left[k].engine];
        left := left - {k};
      }
    }
  }
}
