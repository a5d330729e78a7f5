/** The inbox of `integrations/inbox.py`: deliveries may be repeated at any time and workers may
    die at any point; the table's unique key decides who does the work. Messages are named by their
    outbox ids. */
module Inbox {
  import opened Wrappers

  datatype Key = Key(consumer: string, message: nat)

  /** Where a worker is: its transaction is open up to `Worked`; `Committed` still has to ack. */
  datatype Phase = Begun | Claimed(first: bool) | Worked | Committed

  datatype Worker = Worker(key: Key, phase: Phase)

  /** `inbox` and `effects` are committed state: the unique rows, and the business writes counted. */
  datatype State = State(inbox: set<Key>, effects: multiset<Key>, workers: map<nat, Worker>,
                            acked: set<Key>)

  datatype Action =
    | Deliver(worker: nat, key: Key)
    | Claim(worker: nat)
    | Work(worker: nat)
    | Commit(worker: nat, confirmed: bool)
    | Abort(worker: nat)               // an error before the commit took effect, or a crash
    | Ack(worker: nat)

  /** The worker's open transaction has inserted the inbox row. */
  predicate Holds(w: Worker, key: Key) {
    w.key == key && (w.phase == Claimed(true) || w.phase == Worked)
  }

  /** None: the step cannot happen here. A claim waits while another open transaction holds the row. */
  function Next(s: State, a: Action): Option<State> {
    if a.Deliver? then
      if a.worker in s.workers then None
      else Some(s.(workers := s.workers[a.worker := Worker(a.key, Begun)]))
    else if a.worker !in s.workers then None
    else
      var w := s.workers[a.worker];
      match a
      case Claim(i) =>
        if w.phase != Begun || exists j :: j in s.workers && Holds(s.workers[j], w.key) then None
        else Some(s.(workers := s.workers[i := w.(phase := Claimed(w.key !in s.inbox))]))
      case Work(i) =>
        if w.phase != Claimed(true) then None
        else Some(s.(workers := s.workers[i := w.(phase := Worked)]))
      case Commit(i, confirmed) =>
        if w.phase != Worked && w.phase != Claimed(false) then None
        else
          var workers := if confirmed then s.workers[i := w.(phase := Committed)] else s.workers - {i};
          if w.phase == Worked
          then Some(s.(inbox := s.inbox + {w.key}, effects := s.effects + multiset{w.key}, workers := workers))
          else Some(s.(workers := workers))
      case Abort(i) =>
        Some(s.(workers := s.workers - {i}))
      case Ack(i) =>
        if w.phase != Committed then None
        else Some(s.(acked := s.acked + {w.key}, workers := s.workers - {i}))
  }

  const INITIAL := State({}, multiset{}, map[], {})

  function Exec(s: State, actions: seq<Action>): Option<State>
    decreases |actions|
  {
    if actions == [] then Some(s)
    else match Next(s, actions[0])
         case Some(s') => Exec(s', actions[1..])
         case None => None
  }

  // -- invariants --

  ghost predicate EffectsCounted(s: State) {
    forall k :: s.effects[k] == if k in s.inbox then 1 else 0
  }

  ghost predicate WorkerMatches(s: State, w: Worker) {
    match w.phase
    case Begun => true
    case Claimed(first) => first <==> w.key !in s.inbox
    case Worked => w.key !in s.inbox
    case Committed => w.key in s.inbox
  }

  /** The unique index: two open transactions never hold the same row. */
  ghost predicate OneHolder(s: State) {
    forall i, j, k :: i in s.workers && j in s.workers && Holds(s.workers[i], k) && Holds(s.workers[j], k) ==> i == j
  }

  ghost predicate Inv(s: State) {
    && EffectsCounted(s) && OneHolder(s) && s.acked <= s.inbox
    && forall i :: i in s.workers ==> WorkerMatches(s, s.workers[i])
  }

  lemma CommitKeepsInv(s: State, i: nat, confirmed: bool)
    requires Inv(s) && Next(s, Commit(i, confirmed)).Some?
    ensures Inv(Next(s, Commit(i, confirmed)).value)
  {
    var t := Next(s, Commit(i, confirmed)).value;
    var w := s.workers[i];
    assert WorkerMatches(s, w);
    forall j | j in t.workers ensures WorkerMatches(t, t.workers[j]) {
      assert WorkerMatches(s, s.workers[j]);
      if j != i && w.phase == Worked {
        assert Holds(w, w.key) && !Holds(s.workers[j], w.key);
      }
    }
    assert forall j, k :: j in t.workers && Holds(t.workers[j], k) ==> Holds(s.workers[j], k);
  }

  lemma StepKeepsInv(s: State, a: Action)
    requires Inv(s) && Next(s, a).Some?
    ensures Inv(Next(s, a).value)
  {
    var t := Next(s, a).value;
    if a.Commit? {
      CommitKeepsInv(s, a.worker, a.confirmed);
    } else {
      forall j | j in t.workers ensures WorkerMatches(t, t.workers[j]) {
        if j in s.workers {
          assert WorkerMatches(s, s.workers[j]);
        }
      }
      if a.Claim? {
        assert forall k :: Holds(t.workers[a.worker], k) ==>
                 forall j :: j in s.workers ==> !Holds(s.workers[j], k);
      } else {
        assert forall j, k :: j in t.workers && Holds(t.workers[j], k) ==> j in s.workers && Holds(s.workers[j], k);
      }
      if a.Ack? {
        assert WorkerMatches(s, s.workers[a.worker]);
      }
    }
  }

  lemma {:induction false} RunKeepsInv(s: State, actions: seq<Action>)
    requires Inv(s) && Exec(s, actions).Some?
    ensures Inv(Exec(s, actions).value)
    decreases |actions|
  {
    if actions != [] {
      StepKeepsInv(s, actions[0]);
      RunKeepsInv(Next(s, actions[0]).value, actions[1..]);
    }
  }

  /** Main result. Over every run of repeated deliveries, crashes and commits a message takes effect
      once if its inbox row is committed and not at all otherwise, and is acknowledged only then. */
  lemma OneEffectPerMessage(actions: seq<Action>, key: Key)
    requires Exec(INITIAL, actions).Some?
    ensures var s := Exec(INITIAL, actions).value;
            && s.effects[key] == (if key in s.inbox then 1 else 0)
            && (key in s.acked ==> s.effects[key] == 1)
            && forall i, j ::
                 i in s.workers && j in s.workers && Holds(s.workers[i], key) && Holds(s.workers[j], key) ==> i == j
  {
    RunKeepsInv(INITIAL, actions);
  }

  /** Committed effects are never taken back and never repeated. */
  lemma {:induction false} EffectIsFinal(s: State, actions: seq<Action>, key: Key)
    requires Inv(s) && Exec(s, actions).Some? && s.effects[key] == 1
    ensures Exec(s, actions).value.effects[key] == 1
    decreases |actions|
  {
    if actions != [] {
      var t := Next(s, actions[0]).value;
      StepKeepsInv(s, actions[0]);
      assert key in s.inbox && s.inbox <= t.inbox;
      EffectIsFinal(t, actions[1..], key);
    }
  }

  // -- recovery --

  lemma {:induction false} ExecConcat(s: State, a: seq<Action>, b: seq<Action>)
    ensures Exec(s, a + b) == match Exec(s, a)
                              case Some(s') => Exec(s', b)
                              case None => None
    decreases |a|
  {
    if a == [] {
      assert a + b == b;
    } else {
      assert (a + b)[0] == a[0] && (a + b)[1..] == a[1..] + b;
      if Next(s, a[0]).Some? {
        ExecConcat(Next(s, a[0]).value, a[1..], b);
      }
    }
  }

  lemma {:induction false} AbortAll(s: State) returns (actions: seq<Action>)
    ensures Exec(s, actions) == Some(s.(workers := map[]))
    ensures forall i :: 0 <= i < |actions| ==> actions[i].Abort?
    decreases |s.workers|
  {
    if s.workers == map[] {
      actions := [];
    } else {
      var i :| i in s.workers;
      var t := Next(s, Abort(i)).value;
      assert t.workers.Keys == s.workers.Keys - {i};
      assert |t.workers.Keys| == |s.workers.Keys| - 1;
      var rest := AbortAll(t);
      actions := [Abort(i)] + rest;
      assert actions[1..] == rest;
    }
  }

  /** One undisturbed delivery, with the work or as a duplicate. */
  function Handling(i: nat, key: Key, first: bool): seq<Action> {
    [Deliver(i, key), Claim(i)] + ((if first then [Work(i)] else []) + [Commit(i, true), Ack(i)])
  }

  lemma HandlingSucceeds(s: State, key: Key)
    requires Inv(s) && s.workers == map[]
    ensures var t := Exec(s, Handling(0, key, key !in s.inbox));
            t.Some? && t.value.effects[key] == 1 && key in t.value.acked
  {
    var first := key !in s.inbox;
    var head: seq<Action>, work := [Deliver(0, key), Claim(0)], if first then [Work(0)] else [];
    var tail: seq<Action> := [Commit(0, true), Ack(0)];
    var s1 := Next(s, head[0]).value;
    assert !exists j :: j in s1.workers && Holds(s1.workers[j], key);
    var s2 := Next(s1, head[1]).value;
    assert head[1..] == [head[1]] && head[1..][1..] == [];
    assert Exec(s1, head[1..]) == Exec(s2, []);
    var s3 := if first then Next(s2, Work(0)).value else s2;
    assert first ==> work[1..] == [];
    assert Exec(s2, work) == Some(s3);
    var s4 := Next(s3, tail[0]).value;
    assert tail[1..] == [tail[1]] && tail[1..][1..] == [];
    var s5 := Next(s4, tail[1]).value;
    assert Exec(s4, tail[1..]) == Exec(s5, []);
    assert Exec(s3, tail) == Some(s5);
    ExecConcat(s, head, work + tail);
    ExecConcat(s2, work, tail);
    assert s5.inbox == s.inbox + {key} && s5.effects[key] == 1;
  }
}
