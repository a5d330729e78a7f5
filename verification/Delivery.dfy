/** Outbox and inbox together: a broker may hand any published message to any consumer, at any
    time and as often as it likes. */
module Delivery {
  import opened Wrappers
  import Inbox
  import Outbox

  datatype State = State(outbox: Outbox.State, inbox: Inbox.State)

  datatype Action = Produce(out: Outbox.Action) | Consume(inn: Inbox.Action)

  const INITIAL := State(Outbox.INITIAL, Inbox.INITIAL)

  /** None: the step cannot happen here. */
  function Next(s: State, a: Action): Option<State> {
    match a
    case Produce(out) =>
      var t := Outbox.Next(s.outbox, out);
      if t.None? then None else Some(s.(outbox := t.value))
    case Consume(inn) =>
      if inn.Deliver? && !Outbox.Holds(s.outbox.published, inn.key.message) then None
      else
        var t := Inbox.Next(s.inbox, inn);
        if t.None? then None else Some(s.(inbox := t.value))
  }

  function Exec(s: State, actions: seq<Action>): Option<State>
    decreases |actions|
  {
    if actions == [] then Some(s)
    else match Next(s, actions[0])
         case Some(s') => Exec(s', actions[1..])
         case None => None
  }

  lemma {:induction false} ExecConcat(s: State, a: seq<Action>, b: seq<Action>)
    ensures Exec(s, a + b) == match Exec(s, a)
                              case Some(s') => Exec(s', b)
                              case None => None
    decreases |a|
  {
    if a == [] {
      assert a + b == b;
    } else {
      assert (a + b)[0] == a[0] && (a + b)[1..] == a[1..] + b;
      if Next(s, a[0]).Some? {
        ExecConcat(Next(s, a[0]).value, a[1..], b);
      }
    }
  }

  /** Consumers only know messages that were published. */
  ghost predicate KnownPublished(s: State) {
    && (forall i :: i in s.inbox.workers ==> Outbox.Holds(s.outbox.published, s.inbox.workers[i].key.message))
    && forall k :: k in s.inbox.inbox ==> Outbox.Holds(s.outbox.published, k.message)
  }

  ghost predicate Inv(s: State) {
    Outbox.Inv(s.outbox) && Inbox.Inv(s.inbox) && KnownPublished(s)
  }

  lemma StillPublished(s: State, t: State)
    requires KnownPublished(s) && s.outbox.published <= t.outbox.published && t.inbox == s.inbox
    ensures KnownPublished(t)
  {
    forall id | Outbox.Holds(s.outbox.published, id) ensures Outbox.Holds(t.outbox.published, id) {
      var i :| 0 <= i < |s.outbox.published| && s.outbox.published[i].id == id;
      assert t.outbox.published[i].id == id;
    }
  }

  lemma StepKeepsInv(s: State, a: Action)
    requires Inv(s) && Next(s, a).Some?
    ensures Inv(Next(s, a).value)
  {
    match a
    case Produce(out) =>
      Outbox.StepKeepsInv(s.outbox, out);
      StillPublished(s, Next(s, a).value);
    case Consume(inn) =>
      Inbox.StepKeepsInv(s.inbox, inn);
      ConsumeKnowsPublished(s, inn);
  }

  lemma ConsumeKnowsPublished(s: State, inn: Inbox.Action)
    requires KnownPublished(s) && Next(s, Consume(inn)).Some?
    ensures KnownPublished(Next(s, Consume(inn)).value)
  {
    var t := Next(s, Consume(inn)).value;
    forall i | i in t.inbox.workers
      ensures Outbox.Holds(t.outbox.published, t.inbox.workers[i].key.message)
    {
      if i in s.inbox.workers {
        assert Outbox.Holds(s.outbox.published, s.inbox.workers[i].key.message);
      }
    }
  }

  lemma {:induction false} RunKeepsInv(s: State, actions: seq<Action>)
    requires Inv(s) && Exec(s, actions).Some?
    ensures Inv(Exec(s, actions).value)
    decreases |actions|
  {
    if actions != [] {
      StepKeepsInv(s, actions[0]);
      RunKeepsInv(Next(s, actions[0]).value, actions[1..]);
    }
  }

  /** An event that reached the table in a committed transaction, and what it said. */
  ghost predicate ReallyHappened(s: State, m: Outbox.Message) {
    && m.id < |s.outbox.enqueued| && m.event == s.outbox.enqueued[m.id].event
    && Outbox.Committed(s.outbox, s.outbox.enqueued[m.id].tx)
  }

  /** Main result. In every run, with any number of producers, relays and consumers that may die
      anywhere: only events of committed transactions are published, no two relays claim the same
      row, a row marked sent was published, a message is effective once per consumer if its inbox
      row is there and not at all otherwise, and an acknowledged message was effective exactly once. */
  lemma EffectivelyOnce(actions: seq<Action>, key: Inbox.Key)
    requires Exec(INITIAL, actions).Some?
    ensures var s := Exec(INITIAL, actions).value;
            && (forall m :: m in s.outbox.published ==> ReallyHappened(s, m))
            && Outbox.LocksDisjoint(s.outbox) && Outbox.SentWasPublished(s.outbox)
            && s.inbox.effects[key] == (if key in s.inbox.inbox then 1 else 0)
            && (key in s.inbox.acked ==> s.inbox.effects[key] == 1)
            && (s.inbox.effects[key] > 0 ==> exists m :: m in s.outbox.published && m.id == key.message)
  {
    var s := Exec(INITIAL, actions).value;
    RunKeepsInv(INITIAL, actions);
    forall m | m in s.outbox.published ensures ReallyHappened(s, m) {
      assert Outbox.Genuine(s.outbox, m);
    }
    if key in s.inbox.inbox {
      var i :| 0 <= i < |s.outbox.published| && s.outbox.published[i].id == key.message;
      assert s.outbox.published[i] in s.outbox.published;
    }
  }

  // -- nothing is lost --

  function Produced(outs: seq<Outbox.Action>): (r: seq<Action>)
    ensures |r| == |outs|
  {
    seq(|outs|, i requires 0 <= i < |outs| => Produce(outs[i]))
  }

  function Consumed(inns: seq<Inbox.Action>): (r: seq<Action>)
    ensures |r| == |inns|
  {
    seq(|inns|, i requires 0 <= i < |inns| => Consume(inns[i]))
  }

  lemma {:induction false} LiftOutbox(s: State, outs: seq<Outbox.Action>)
    requires Outbox.Exec(s.outbox, outs).Some?
    ensures Exec(s, Produced(outs)) == Some(s.(outbox := Outbox.Exec(s.outbox, outs).value))
    decreases |outs|
  {
    if outs != [] {
      var t := s.(outbox := Outbox.Next(s.outbox, outs[0]).value);
      assert Produced(outs)[1..] == Produced(outs[1..]);
      LiftOutbox(t, outs[1..]);
    }
  }

  lemma {:induction false} LiftInbox(s: State, inns: seq<Inbox.Action>)
    requires Inbox.Exec(s.inbox, inns).Some?
    requires forall i :: 0 <= i < |inns| && inns[i].Deliver? ==> Outbox.Holds(s.outbox.published, inns[i].key.message)
    ensures Exec(s, Consumed(inns)) == Some(s.(inbox := Inbox.Exec(s.inbox, inns).value))
    decreases |inns|
  {
    if inns != [] {
      var t := s.(inbox := Inbox.Next(s.inbox, inns[0]).value);
      assert Consumed(inns)[1..] == Consumed(inns[1..]);
      LiftInbox(t, inns[1..]);
    }
  }

  /** Main result, the other half: whatever has happened, and even if every process dies now, an
      event whose transaction committed can still be sent, and be effective and acknowledged for any
      consumer, by relays that keep to one positive batch size. */
  lemma EveryEventCanStillArrive(s: State, id: nat, consumer: string, limit: int)
      returns (drains: seq<Outbox.Action>, handling: seq<Inbox.Action>)
    requires Inv(s) && limit > 0
    requires id < |s.outbox.enqueued| && Outbox.Committed(s.outbox, s.outbox.enqueued[id].tx)
    ensures Outbox.SameLimit(drains, limit)
    ensures var end := Exec(s, Produced(drains) + Consumed(handling));
            && end.Some?
            && id in end.value.outbox.rows && end.value.outbox.rows[id].sent
            && end.value.inbox.effects[Inbox.Key(consumer, id)] == 1
            && Inbox.Key(consumer, id) in end.value.inbox.acked
  {
    drains := Outbox.EveryEventCanStillBeSent(s.outbox, id, limit);
    LiftOutbox(s, drains);
    var sent := Exec(s, Produced(drains)).value;
    var m := Outbox.Message(id, sent.outbox.rows[id].event);
    var k :| 0 <= k < |sent.outbox.published| && sent.outbox.published[k] == m;
    var key := Inbox.Key(consumer, id);
    var stop := Inbox.AbortAll(s.inbox);
    Inbox.RunKeepsInv(s.inbox, stop);
    var idle := Inbox.Exec(s.inbox, stop).value;
    Inbox.HandlingSucceeds(idle, key);
    var go := Inbox.Handling(0, key, key !in idle.inbox);
    Inbox.ExecConcat(s.inbox, stop, go);
    handling := stop + go;
    LiftInbox(sent, handling);
    ExecConcat(s, Produced(drains), Consumed(handling));
  }
}
