/** What other tasks can do to the engine registry while a registration waits for the disposal of the
    old engines (`_async/database.py:223-228`, `329-351`): the map is swapped only after that. */
module ConfigSwap {
  import opened Wrappers
  import opened Config
  import opened Engine
  import opened Keys
  import opened Routing

  /** The entries of the engine table that belong to none of these databases. */
  function Outside(entries: Entries, gone: set<string>): Entries {
    map t | t in entries && entries[t].key.database !in gone :: entries[t]
  }

  /** The two configurations say the same about every database except these. */
  ghost predicate SameExcept(before: Databases, after: Databases, gone: set<string>) {
    forall d :: d !in gone ==> (d in before <==> d in after) && (d in before && d in after ==> before[d] == after[d])
  }

  // ---- the window ----------------------------------------------------------------------------

  /** A step of another task: a request, or `drain_engine`. */
  datatype Action = Get(route: ResolvedRoute, now: real, builds: bool, victim: string) | Drain(text: string)

  /** None: the step cannot happen here. `c` holds the configuration before the swap. */
  function Next(c: Setup, t: Table, a: Action): Option<Table> {
    match a
    case Drain(text) => Some(t.(entries := t.entries - {text}))
    case Get(route, now, builds, victim) =>
      match GetStep(c, t, route, now, builds, victim)
      case Some(got) => Some(got.table)
      case None => None
  }

  function Exec(c: Setup, t: Table, actions: seq<Action>): Option<Table>
    decreases |actions|
  {
    if actions == [] then Some(t)
    else match Next(c, t, actions[0])
         case Some(t') => Exec(c, t', actions[1..])
         case None => None
  }

  lemma {:induction false} ExecSnoc(c: Setup, t: Table, actions: seq<Action>, a: Action)
    ensures Exec(c, t, actions + [a]) == match Exec(c, t, actions)
                                         case Some(t') => Next(c, t', a)
                                         case None => None
    decreases |actions|
  {
    if actions == [] {
      assert [a][1..] == [] && actions + [a] == [a];
    } else {
      assert (actions + [a])[0] == actions[0] && (actions + [a])[1..] == actions[1..] + [a];
      if Next(c, t, actions[0]).Some? {
        ExecSnoc(c, Next(c, t, actions[0]).value, actions[1..], a);
      }
    }
  }

  /** After the purge every engine of `name` is one that was built since. */
  ghost predicate InWindow(c: Setup, start: nat, name: string, t: Table) {
    && Coheres(c, t) && start <= t.built
    && forall k :: k in t.entries && t.entries[k].key.database == name ==> t.entries[k].engine >= start
  }

  /** After a request every entry was there before, or is the one just built. */
  lemma GetAddsOne(c: Setup, t: Table, a: Action, k: string)
    requires a.Get? && Next(c, t, a).Some? && k in Next(c, t, a).value.entries
    ensures var next := Next(c, t, a).value;
            && t.built <= next.built
            && (next.entries[k].engine == t.built
                || (k in t.entries && next.entries[k].key == t.entries[k].key
                    && next.entries[k].engine == t.entries[k].engine))
  {}

  lemma StepStaysInWindow(c: Setup, start: nat, name: string, t: Table, a: Action)
    requires InWindow(c, start, name, t) && Next(c, t, a).Some?
    ensures InWindow(c, start, name, Next(c, t, a).value)
  {
    match a
    case Drain(text) => DropKeepsCoherence(c, t, text);
    case Get(route, now, builds, victim) =>
      var next := Next(c, t, a).value;
      GetKeepsCoherence(c, t, route, now, builds, victim);
      forall k | k in next.entries && next.entries[k].key.database == name ensures next.entries[k].engine >= start {
        GetAddsOne(c, t, a, k);
      }
  }

  lemma {:induction false} RunStaysInWindow(c: Setup, start: nat, name: string, t: Table, actions: seq<Action>)
    requires InWindow(c, start, name, t) && Exec(c, t, actions).Some?
    ensures InWindow(c, start, name, Exec(c, t, actions).value)
    decreases |actions|
  {
    if actions != [] {
      StepStaysInWindow(c, start, name, t, actions[0]);
      RunStaysInWindow(c, start, name, Next(c, t, actions[0]).value, actions[1..]);
    }
  }

  /** The configuration `after` names another target for this engine's route, or none. */
  predicate Outdated(c: Setup, after: Databases, e: EngineEntry) {
    TargetFor(after, RouteOf(e.key)) != TargetFor(c.databases, RouteOf(e.key))
  }

  /** A live engine of `name`, built since `start`, whose target `after` changes. */
  ghost predicate LeftBehind(c: Setup, start: nat, name: string, after: Databases, t: Table, k: string) {
    k in t.entries && t.entries[k].key.database == name && t.entries[k].engine >= start
    && Outdated(c, after, t.entries[k])
  }

  /** Swapping the map under any table of the window leaves it coherent exactly when no engine built
      in the window and still live has a target that the swap changes. */
  lemma SwapCoherentExactlyWhen(c: Setup, start: nat, name: string, after: Databases, t: Table)
    requires InWindow(c, start, name, t) && SameExcept(c.databases, after, {name})
    ensures Coheres(c.(databases := after), t) <==> forall k :: !LeftBehind(c, start, name, after, t, k)
  {
    forall k | k in t.entries
      ensures Current(c.environment, after, k, t.entries[k]) <==> !LeftBehind(c, start, name, after, t, k)
    {
      assert Current(c.environment, c.databases, k, t.entries[k]);
    }
  }

  /** The registry right after the purge of `name`. */
  function Purged(t: Table, name: string): Table {
    t.(entries := Outside(t.entries, {name}))
  }

  lemma PurgeOpensWindow(c: Setup, t: Table, name: string)
    requires Coheres(c, t)
    ensures InWindow(c, t.built, name, Purged(t, name))
  {
    var kept := Outside(t.entries, {name});
    assert kept.Keys <= t.entries.Keys;
    SubsetCount(kept.Keys, t.entries.Keys);
    assert |kept| == |kept.Keys| && |t.entries| == |t.entries.Keys|;
    forall k | k in kept ensures Current(c.environment, c.databases, k, kept[k]) {
      assert kept[k] == t.entries[k];
    }
  }

  lemma {:induction false} SubsetCount<T>(a: set<T>, b: set<T>)
    requires a <= b
    ensures |a| <= |b|
  {
    assert b == a + (b - a);
  }

  /** Main result, for one run: purge, then whatever other tasks do, then the swap. */
  lemma RegistrationCoherentExactlyWhen(c: Setup, t: Table, name: string, after: Databases, window: seq<Action>)
    requires Coheres(c, t) && SameExcept(c.databases, after, {name})
    requires Exec(c, Purged(t, name), window).Some?
    ensures var end := Exec(c, Purged(t, name), window).value;
            Coheres(c.(databases := after), end) <==> forall k :: !LeftBehind(c, t.built, name, after, end, k)
  {
    PurgeOpensWindow(c, t, name);
    RunStaysInWindow(c, t.built, name, Purged(t, name), window);
    SwapCoherentExactlyWhen(c, t.built, name, after, Exec(c, Purged(t, name), window).value);
  }

  // ---- when no run can do harm -----------------------------------------------------------------

  /** A route of `name` that has a target and would get another one, or none. */
  ghost predicate Changes(c: Setup, name: string, after: Databases, route: ResolvedRoute) {
    && route.database == name && TargetFor(c.databases, route).Some?
    && TargetFor(after, route) != TargetFor(c.databases, route)
  }

  lemma {:induction false} DrainAll(c: Setup, t: Table) returns (actions: seq<Action>)
    ensures Exec(c, t, actions) == Some(Table(map[], t.built))
    decreases |t.entries|
  {
    if t.entries == map[] {
      actions := [];
    } else {
      var k :| k in t.entries;
      var next := Next(c, t, Drain(k)).value;
      assert next.entries.Keys == t.entries.Keys - {k};
      assert |next.entries.Keys| == |t.entries.Keys| - 1;
      var rest := DrainAll(c, next);
      actions := [Drain(k)] + rest;
      assert actions[1..] == rest;
    }
  }

  /** The run that goes wrong: one request for a changed route in the window. */
  lemma HarmfulWindow(c: Setup, t: Table, name: string, after: Databases, route: ResolvedRoute)
      returns (window: seq<Action>, k: string)
    requires Coheres(c, t) && SameExcept(c.databases, after, {name}) && CanBuild(c)
    requires Changes(c, name, after, route)
    ensures Exec(c, Purged(t, name), window).Some?
    ensures var end := Exec(c, Purged(t, name), window).value;
            && LeftBehind(c, t.built, name, after, end, k)
            && k == KeyText(Requested(c.environment, c.databases, route).value)
            && Some(end.entries[k].target) == TargetFor(c.databases, route)
            && !Coheres(c.(databases := after), end)
  {
    var drains := DrainAll(c, Purged(t, name));
    var get := Get(route, 0.0, true, "");
    ExecSnoc(c, Purged(t, name), drains, get);
    window := drains + [get];
    var key := Requested(c.environment, c.databases, route).value;
    k := KeyText(key);
    assert RouteOf(key) == route;
    var end := Exec(c, Purged(t, name), window).value;
    assert k in end.entries && end.entries[k].key == key;
    assert LeftBehind(c, t.built, name, after, end, k);
    RegistrationCoherentExactlyWhen(c, t, name, after, window);
  }

  ghost predicate HarmlessWindow(c: Setup, t: Table, name: string, after: Databases, window: seq<Action>) {
    Exec(c, Purged(t, name), window).Some? ==>
      Coheres(c.(databases := after), Exec(c, Purged(t, name), window).value)
  }

  /** Main result, for all runs: no interleaving can do harm exactly when no route of the database
      loses or changes its target, or the registry cannot build engines at all. */
  lemma NeverHarmfulExactlyWhen(c: Setup, t: Table, name: string, after: Databases)
    requires Coheres(c, t) && SameExcept(c.databases, after, {name})
    ensures (forall window :: HarmlessWindow(c, t, name, after, window))
            <==> !CanBuild(c) || forall route :: !Changes(c, name, after, route)
  {
    if CanBuild(c) && exists route :: Changes(c, name, after, route) {
      var route :| Changes(c, name, after, route);
      var window, k := HarmfulWindow(c, t, name, after, route);
      assert !HarmlessWindow(c, t, name, after, window);
    } else {
      forall window ensures HarmlessWindow(c, t, name, after, window) {
        if Exec(c, Purged(t, name), window).Some? {
          NothingLeftBehind(c, t, name, after, window);
        }
      }
    }
  }

  lemma NothingLeftBehind(c: Setup, t: Table, name: string, after: Databases, window: seq<Action>)
    requires Coheres(c, t) && SameExcept(c.databases, after, {name})
    requires !CanBuild(c) || forall route :: !Changes(c, name, after, route)
    requires Exec(c, Purged(t, name), window).Some?
    ensures Coheres(c.(databases := after), Exec(c, Purged(t, name), window).value)
  {
    var end := Exec(c, Purged(t, name), window).value;
    PurgeOpensWindow(c, t, name);
    RunStaysInWindow(c, t.built, name, Purged(t, name), window);
    if !CanBuild(c) {
      NothingBuilt(c, Purged(t, name), window);
    }
    forall k ensures !LeftBehind(c, t.built, name, after, end, k) {
      if k in end.entries {
        var e := end.entries[k];
        assert Current(c.environment, c.databases, k, e);
        assert !CanBuild(c) || !Changes(c, name, after, RouteOf(e.key));
      }
    }
    SwapCoherentExactlyWhen(c, t.built, name, after, end);
  }

  /** Only builds give out numbers, and every number in the table was given out. */
  lemma {:induction false} NothingBuilt(c: Setup, t: Table, window: seq<Action>)
    requires !CanBuild(c) && Exec(c, t, window).Some?
    ensures Exec(c, t, window).value.entries.Keys <= t.entries.Keys
    ensures forall k :: k in Exec(c, t, window).value.entries ==>
              Exec(c, t, window).value.entries[k].key == t.entries[k].key
    decreases |window|
  {
    if window != [] {
      NothingBuilt(c, Next(c, t, window[0]).value, window[1..]);
    }
  }

  // ---- what the next request gets --------------------------------------------------------------

  /** The text names the driver last, so it distinguishes drivers. */
  lemma TextNamesDriver(key: EngineKey, driver: string)
    ensures KeyText(key.(driver := driver)) == KeyText(key) <==> driver == key.driver
  {
    var a, b := key, key.(driver := driver);
    KeyTextSplits(a);
    KeyTextSplits(b);
    TailNamesDriver(a, driver);
    var pa, pb := Join(Parts(a)[2..]), Join(Parts(b)[2..]);
    var prefix := DatabasePrefix(a.environment, a.database);
    if KeyText(a) == KeyText(b) {
      assert (prefix + pa)[|prefix|..] == pa && (prefix + pb)[|prefix|..] == pb;
    }
  }

  lemma TailNamesDriver(key: EngineKey, driver: string)
    ensures Join(Parts(key.(driver := driver))[2..]) == Join(Parts(key)[2..]) <==> driver == key.driver
  {
    var p, q := Parts(key), Parts(key.(driver := driver));
    var n := |p| - 1;
    assert |q| == |p| && forall i :: 0 <= i < n ==> p[i] == q[i];
    JoinCancels(p[2..], q[2..]);
  }

  lemma {:induction false} JoinCancels(p: seq<string>, q: seq<string>)
    requires p != [] && |p| == |q| && forall i :: 0 <= i < |p| - 1 ==> p[i] == q[i]
    ensures Join(p) == Join(q) <==> p[|p| - 1] == q[|q| - 1]
  {
    if |p| > 1 {
      JoinCancels(p[1..], q[1..]);
      var a, b, head := Join(p[1..]), Join(q[1..]), p[0] + ":";
      assert Join(p) == head + a && Join(q) == head + b;
      assert (head + a)[|head|..] == a && (head + b)[|head|..] == b;
    }
  }

  /** After the swap, the engine left behind is what the next request for its route gets, although the
      configuration names another target: exactly when both targets use the same driver. Otherwise
      it stays in the table under a text nobody asks for. */
  lemma ServedExactlyWhenSameDriver(c: Setup, start: nat, name: string, after: Databases, t: Table, k: string,
                                    now: real, builds: bool)
    requires Coheres(c, t) && LeftBehind(c, start, name, after, t, k)
    requires TargetFor(after, RouteOf(t.entries[k].key)).Some?
    ensures var old', wanted := t.entries[k], TargetFor(after, RouteOf(t.entries[k].key)).value;
            && old'.target != wanted
            && (Driver(old'.target) == Driver(wanted) ==>
                  GetStep(c.(databases := after), t, RouteOf(old'.key), now, builds, "")
                  == Some(Got(Ok(old'.(lastUsed := now)), t.(entries := t.entries[k := old'.(lastUsed := now)]), [])))
            && (KeyText(KeyFor(c.environment, RouteOf(old'.key), wanted)) == k
                <==> Driver(old'.target) == Driver(wanted))
  {
    var e := t.entries[k];
    var wanted := TargetFor(after, RouteOf(e.key)).value;
    assert Current(c.environment, c.databases, k, e);
    var key := KeyFor(c.environment, RouteOf(e.key), wanted);
    assert key == e.key.(driver := Driver(wanted)) && e.key.driver == Driver(e.target);
    TextNamesDriver(e.key, Driver(wanted));
  }
}
