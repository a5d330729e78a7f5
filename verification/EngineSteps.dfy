/** The engine registry under concurrency: requests and disposals split where `_async/engine.py`
    releases its lock. Engines popped from the table are disposed later, in any order. */
module EngineSteps {
  import opened Wrappers
  import Engine
  import Keys
  import Config

  /** `live` is the table; the multisets hold engines that left it. `lost` holds engines that were
      popped to make room for one that could not be built. */
  datatype State = State(live: map<string, nat>, popped: multiset<nat>, lost: multiset<nat>,
                         disposed: multiset<nat>, built: nat)

  datatype Settings = Settings(cap: Option<nat>, evictLru: bool)

  datatype Action =
    | Get(key: string, victim: string, builds: bool)  // the locked part of `get`
    | Pop(keys: set<string>)                          // the locked part of the dispose methods
    | Dispose(engine: nat)                            // one awaited disposal

  const INITIAL := State(map[], multiset{}, multiset{}, multiset{}, 0)

  predicate Full(c: Settings, s: State) {
    c.cap.Some? && |s.live| >= c.cap.value
  }

  function Engines(live: map<string, nat>, keys: set<string>): set<nat> {
    set k | k in keys && k in live :: live[k]
  }

  /** None: the step cannot happen here. A request that raises leaves the state as it is. */
  function Next(c: Settings, s: State, a: Action): Option<State> {
    match a
    case Get(key, victim, builds) =>
      if key in s.live then Some(s)
      else if Full(c, s) && !c.evictLru then Some(s)
      else if Full(c, s) && s.live != map[] then
        if victim !in s.live then None
        else
          var kept, gone := s.live - {victim}, multiset{s.live[victim]};
          if builds then Some(s.(live := kept[key := s.built], popped := s.popped + gone, built := s.built + 1))
          else Some(s.(live := kept, lost := s.lost + gone))
      else if builds then Some(s.(live := s.live[key := s.built], built := s.built + 1))
      else Some(s)
    case Pop(keys) =>
      Some(s.(live := s.live - keys, popped := s.popped + multiset(Engines(s.live, keys))))
    case Dispose(engine) =>
      if engine !in s.popped then None
      else Some(s.(popped := s.popped - multiset{engine}, disposed := s.disposed + multiset{engine}))
  }

  function Exec(c: Settings, s: State, actions: seq<Action>): Option<State>
    decreases |actions|
  {
    if actions == [] then Some(s)
    else match Next(c, s, actions[0])
         case Some(s') => Exec(c, s', actions[1..])
         case None => None
  }

  /** No two keys share an engine. */
  predicate Injective(live: map<string, nat>) {
    forall k, l :: k in live && l in live && k != l ==> live[k] != live[l]
  }

  function Places(s: State, engine: nat): nat {
    (if engine in s.live.Values then 1 else 0)
    + s.popped[engine] + s.lost[engine] + s.disposed[engine]
  }

  ghost predicate Conserved(s: State) {
    && Injective(s.live)
    && forall e: nat :: Places(s, e) == if e < s.built then 1 else 0
  }

  predicate WithinCap(c: Settings, s: State) {
    c.cap.Some? ==> |s.live| <= if c.cap.value == 0 then 1 else c.cap.value
  }

  lemma RemovedValues(live: map<string, nat>, keys: set<string>)
    requires Injective(live)
    ensures Injective(live - keys)
    ensures (live - keys).Values == live.Values - Engines(live, keys)
    ensures Engines(live, keys) <= live.Values
  {
    forall e | e in live.Values - Engines(live, keys) ensures e in (live - keys).Values {
      var k :| k in live && live[k] == e;
      assert k !in keys;
      assert (live - keys)[k] == e;
    }
  }

  lemma InsertedValues(live: map<string, nat>, key: string, engine: nat)
    requires Injective(live) && key !in live && engine !in live.Values
    ensures Injective(live[key := engine])
    ensures live[key := engine].Values == live.Values + {engine}
  {
    var longer := live[key := engine];
    assert longer[key] == engine;
    forall e | e in live.Values ensures e in longer.Values {
      var k :| k in live && live[k] == e;
      assert longer[k] == e;
    }
    forall k, l | k in longer && l in longer && k != l ensures longer[k] != longer[l] {
      assert k in live ==> live[k] in live.Values;
      assert l in live ==> live[l] in live.Values;
    }
  }

  lemma PopConserves(s: State, keys: set<string>)
    requires Conserved(s)
    ensures var gone := Engines(s.live, keys);
            Conserved(s.(live := s.live - keys, popped := s.popped + multiset(gone)))
    ensures Conserved(s.(live := s.live - keys, lost := s.lost + multiset(Engines(s.live, keys))))
  {
    RemovedValues(s.live, keys);
    var gone := Engines(s.live, keys);
    var t, u := s.(live := s.live - keys, popped := s.popped + multiset(gone)),
                s.(live := s.live - keys, lost := s.lost + multiset(gone));
    forall e: nat
      ensures Places(t, e) == Places(s, e) && Places(u, e) == Places(s, e)
    {}
  }

  lemma BuildConserves(s: State, key: string)
    requires Conserved(s) && key !in s.live
    ensures Conserved(s.(live := s.live[key := s.built], built := s.built + 1))
  {
    assert Places(s, s.built) == 0;
    InsertedValues(s.live, key, s.built);
    var t := s.(live := s.live[key := s.built], built := s.built + 1);
    forall e: nat ensures Places(t, e) == if e < t.built then 1 else 0 {
      assert Places(s, e) == if e < s.built then 1 else 0;
    }
  }

  lemma DisposeConserves(s: State, engine: nat)
    requires Conserved(s) && engine in s.popped
    ensures Conserved(s.(popped := s.popped - multiset{engine}, disposed := s.disposed + multiset{engine}))
  {
    var t := s.(popped := s.popped - multiset{engine}, disposed := s.disposed + multiset{engine});
    forall e: nat ensures Places(t, e) == Places(s, e) {}
  }

  lemma StepConserves(c: Settings, s: State, a: Action)
    requires Conserved(s) && Next(c, s, a).Some?
    ensures Conserved(Next(c, s, a).value)
  {
    match a
    case Pop(keys) => PopConserves(s, keys);
    case Dispose(engine) => DisposeConserves(s, engine);
    case Get(key, victim, builds) =>
      if key !in s.live && !(Full(c, s) && !c.evictLru) {
        if Full(c, s) && s.live != map[] {
          assert Engines(s.live, {victim}) == {s.live[victim]};
          assert multiset({s.live[victim]}) == multiset{s.live[victim]};
          PopConserves(s, {victim});
          if builds {
            BuildConserves(s.(live := s.live - {victim}, popped := s.popped + multiset{s.live[victim]}), key);
          }
        } else if builds {
          BuildConserves(s, key);
        }
      }
  }

  lemma CountWithout(live: map<string, nat>, keys: set<string>)
    ensures |live - keys| <= |live|
    ensures forall k :: keys == {k} && k in live ==> |live - keys| == |live| - 1
  {
    assert (live - keys).Keys == live.Keys - keys;
    assert |live| == |live.Keys| && |live - keys| == |(live - keys).Keys|;
  }

  lemma CountWith(live: map<string, nat>, key: string, engine: nat)
    requires key !in live
    ensures |live[key := engine]| == |live| + 1
  {
    assert live[key := engine].Keys == live.Keys + {key};
    assert |live| == |live.Keys| && |live[key := engine]| == |live[key := engine].Keys|;
  }

  lemma StepKeepsCap(c: Settings, s: State, a: Action)
    requires WithinCap(c, s) && Next(c, s, a).Some?
    ensures WithinCap(c, Next(c, s, a).value)
  {
    match a
    case Dispose(_) =>
    case Pop(keys) => CountWithout(s.live, keys);
    case Get(key, victim, builds) =>
      if key !in s.live && Full(c, s) && c.evictLru && s.live != map[] {
        CountWithout(s.live, {victim});
        CountWith(s.live - {victim}, key, s.built);
      } else if key !in s.live && (!Full(c, s) || c.evictLru) && builds {
        CountWith(s.live, key, s.built);
      }
  }

  /** Main result. However requests and disposals interleave, every engine ever built is in exactly
      one place: live, popped and waiting, lost, or disposed once; and the table keeps its cap. */
  lemma {:induction false} EveryEngineIsSomewhere(c: Settings, s: State, actions: seq<Action>)
    requires Conserved(s) && WithinCap(c, s) && Exec(c, s, actions).Some?
    ensures Conserved(Exec(c, s, actions).value) && WithinCap(c, Exec(c, s, actions).value)
    decreases |actions|
  {
    if actions != [] {
      StepConserves(c, s, actions[0]);
      StepKeepsCap(c, s, actions[0]);
      EveryEngineIsSomewhere(c, Next(c, s, actions[0]).value, actions[1..]);
    }
  }

  lemma RunsConserve(c: Settings, actions: seq<Action>)
    requires Exec(c, INITIAL, actions).Some?
    ensures Conserved(Exec(c, INITIAL, actions).value) && WithinCap(c, Exec(c, INITIAL, actions).value)
  {
    EveryEngineIsSomewhere(c, INITIAL, actions);
  }

  predicate AllBuild(actions: seq<Action>) {
    forall i :: 0 <= i < |actions| && actions[i].Get? ==> actions[i].builds
  }

  /** No engine is lost as long as every build succeeds. */
  lemma {:induction false} NothingLostIfAllBuild(c: Settings, s: State, actions: seq<Action>)
    requires Exec(c, s, actions).Some? && AllBuild(actions)
    ensures Exec(c, s, actions).value.lost == s.lost
    decreases |actions|
  {
    if actions != [] {
      assert actions[0].Get? ==> actions[0].builds;
      NothingLostIfAllBuild(c, Next(c, s, actions[0]).value, actions[1..]);
    }
  }

  /** A step loses an engine exactly when it evicts for an engine that then cannot be built. */
  lemma LosesExactlyWhen(c: Settings, s: State, a: Action)
    requires Next(c, s, a).Some?
    ensures Next(c, s, a).value.lost != s.lost
            <==> a.Get? && a.key !in s.live && Full(c, s) && c.evictLru && s.live != map[] && !a.builds
  {
    if a.Get? && a.victim in s.live {
      var lost := s.lost + multiset{s.live[a.victim]};
      assert lost[s.live[a.victim]] == s.lost[s.live[a.victim]] + 1;
    }
  }

  // ---- the registry as an object -------------------------------------------------------------

  function LiveIn(entries: Engine.Entries): map<string, nat> {
    map k | k in entries :: entries[k].engine
  }

  lemma LiveCount(entries: Engine.Entries)
    ensures LiveIn(entries).Keys == entries.Keys && |LiveIn(entries)| == |entries|
    ensures LiveIn(entries) == map[] <==> entries == map[]
  {
    assert LiveIn(entries).Keys == entries.Keys;
    assert |entries| == |entries.Keys| && |LiveIn(entries)| == |LiveIn(entries).Keys|;
  }

  lemma LiveChanges(entries: Engine.Entries, text: string, e: Engine.EngineEntry)
    ensures LiveIn(entries[text := e]) == LiveIn(entries)[text := e.engine]
  {}

  lemma LiveShrinks(entries: Engine.Entries, victim: string)
    ensures LiveIn(entries - {victim}) == LiveIn(entries) - {victim}
  {}

  /** What one `get` of the registry does when nothing comes in between. */
  function Steps(c: Engine.Setup, t: Engine.Table, call: Engine.Call): seq<Action>
    requires Engine.Get(c, t, call).Some?
  {
    match Engine.Requested(c.environment, call.databases, call.route)
    case None => []
    case Some(key) =>
      var gone := Engine.Get(c, t, call).value.gone;
      [Get(Keys.KeyText(key), call.victim, call.builds)] + if gone == [] then [] else [Dispose(gone[0])]
  }

  /** `s` is what is left of the table `t`, when `gone` were popped since `before`. */
  ghost predicate Follows(before: State, s: State, t: Engine.Table, gone: seq<nat>) {
    && s.live == LiveIn(t.entries) && s.built == t.built
    && s.popped == before.popped + multiset(gone) && s.disposed == before.disposed
  }

  lemma BuildingPart(c: Engine.Setup, t: Engine.Table, s: State, key: Keys.EngineKey, target: Config.TargetConfig,
                     now: real, builds: bool, victim: string)
    requires Engine.CreateStep(c, t, key, target, now, builds, victim).Some? && s.live == LiveIn(t.entries)
    requires s.built == t.built && Keys.KeyText(key) !in t.entries
    ensures var got := Engine.CreateStep(c, t, key, target, now, builds, victim).value;
            var next := Next(Settings(c.cap, c.evictLru), s, Get(Keys.KeyText(key), victim, builds));
            && next.Some? && |got.gone| <= 1 && Follows(s, next.value, got.table, got.gone)
  {
    var text, e := Keys.KeyText(key), Engine.EngineEntry(key, target, t.built, now);
    LiveCount(t.entries);
    if !Engine.Full(c.cap, t.entries) || t.entries == map[] {
      LiveChanges(t.entries, text, e);
    } else if c.evictLru {
      LiveShrinks(t.entries, victim);
      LiveChanges(t.entries - {victim}, text, e);
      assert multiset([s.live[victim]]) == multiset{s.live[victim]};
    }
  }

  lemma LockedPart(c: Engine.Setup, t: Engine.Table, s: State, call: Engine.Call)
    requires Engine.Get(c, t, call).Some? && s.live == LiveIn(t.entries) && s.built == t.built
    requires Engine.Requested(c.environment, call.databases, call.route).Some?
    ensures var got := Engine.Get(c, t, call).value;
            var next := Next(Settings(c.cap, c.evictLru), s, Steps(c, t, call)[0]);
            && next.Some? && |got.gone| <= 1 && Follows(s, next.value, got.table, got.gone)
  {
    var key := Engine.Requested(c.environment, call.databases, call.route).value;
    var text, target := Keys.KeyText(key), Engine.TargetFor(call.databases, call.route).value;
    if text in t.entries {
      LiveChanges(t.entries, text, t.entries[text].(lastUsed := call.now));
      assert LiveIn(t.entries)[text := t.entries[text].engine] == LiveIn(t.entries);
    } else {
      BuildingPart(c.(databases := call.databases), t, s, key, target, call.now, call.builds, call.victim);
    }
  }

  lemma OneStep(c: Settings, s: State, a: Action)
    ensures Exec(c, s, [a]) == Next(c, s, a)
  {
    assert [a][1..] == [];
  }

  lemma ThenDisposed(c: Settings, s: State, a: Action, engine: nat)
    requires Next(c, s, a).Some? && engine in Next(c, s, a).value.popped
    ensures Exec(c, s, [a, Dispose(engine)]) == Next(c, Next(c, s, a).value, Dispose(engine))
  {
    assert [a, Dispose(engine)][1..] == [Dispose(engine)];
    OneStep(c, Next(c, s, a).value, Dispose(engine));
  }

  lemma DisposedAgain(c: Settings, before: State, locked: State, engine: nat)
    requires locked.popped == before.popped + multiset{engine} && locked.disposed == before.disposed
    ensures var after := Next(c, locked, Dispose(engine));
            && engine in locked.popped && after.Some?
            && after.value == locked.(popped := before.popped, disposed := before.disposed + multiset{engine})
  {}

  lemma Single(gone: seq<nat>)
    requires |gone| == 1
    ensures multiset(gone) == multiset{gone[0]}
  {
    assert gone == [gone[0]];
  }

  lemma GoneAreDisposed(c: Settings, s: State, a: Action, t: Engine.Table, gone: seq<nat>)
    requires Next(c, s, a).Some? && |gone| <= 1 && Follows(s, Next(c, s, a).value, t, gone)
    ensures var run := Exec(c, s, [a] + if gone == [] then [] else [Dispose(gone[0])]);
            && run.Some? && run.value.live == LiveIn(t.entries) && run.value.built == t.built
            && run.value.popped == s.popped && run.value.disposed == s.disposed + multiset(gone)
  {
    if gone == [] {
      OneStep(c, s, a);
    } else {
      Single(gone);
      DisposedAgain(c, s, Next(c, s, a).value, gone[0]);
      assert [a] + [Dispose(gone[0])] == [a, Dispose(gone[0])];
      ThenDisposed(c, s, a, gone[0]);
    }
  }

  /** A `get` of the registry is a run of these steps: the locked part, then the disposal. */
  lemma GetIsRun(c: Engine.Setup, t: Engine.Table, s: State, call: Engine.Call)
    requires Engine.Get(c, t, call).Some? && s.live == LiveIn(t.entries) && s.built == t.built
    ensures var got, after := Engine.Get(c, t, call).value, Exec(Settings(c.cap, c.evictLru), s, Steps(c, t, call));
            && after.Some? && after.value.live == LiveIn(got.table.entries) && after.value.built == got.table.built
            && after.value.popped == s.popped && after.value.disposed == s.disposed + multiset(got.gone)
  {
    var d, actions, got := Settings(c.cap, c.evictLru), Steps(c, t, call), Engine.Get(c, t, call).value;
    if actions == [] {
      assert multiset(got.gone) == multiset{};
    } else {
      LockedPart(c, t, s, call);
      GoneAreDisposed(d, s, actions[0], got.table, got.gone);
    }
  }

  /** It does happen: with room for one engine, a failed build loses the live one. */
  lemma FailedBuildLosesEngine()
    ensures var c := Settings(Some(1), true);
            var run := Exec(c, INITIAL, [Get("a", "", true), Get("b", "a", false)]);
            run.Some? && run.value.lost == multiset{0} && run.value.live == map[] && run.value.popped == multiset{}
  {
    var c := Settings(Some(1), true);
    var actions := [Get("a", "", true), Get("b", "a", false)];
    var s1 := State(map["a" := 0], multiset{}, multiset{}, multiset{}, 1);
    assert Next(c, INITIAL, actions[0]) == Some(s1);
    assert "a"[0] != "b"[0] && "b" !in s1.live;
    assert |s1.live| == 1 && s1.live != map[] && s1.live["a"] == 0;
    assert s1.live - {"a"} == map[];
    assert multiset{} + multiset{0} == multiset{0};
    assert Next(c, s1, actions[1]) == Some(State(map[], multiset{}, multiset{0}, multiset{}, 1));
    assert actions[1..] == [actions[1]] && [actions[1]][1..] == [];
  }
}
