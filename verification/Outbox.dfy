/** The transactional outbox of `integrations/outbox.py`: producers insert events in their own
    transactions, any number of relays drain them, and any of them may die at any point. */
module Outbox {
  import opened Wrappers

  datatype Event = Event(topic: string, payload: string)

  datatype Enqueued = Enqueued(tx: nat, event: Event)

  datatype Row = Row(event: Event, sent: bool)

  /** What the `publish` callback receives. */
  datatype Message = Message(id: nat, event: Event)

  /** A relay inside the transaction of `drain`; `done` of its claimed rows are published. */
  datatype Relay = Relay(claimed: seq<Message>, done: nat, stamped: bool)

  /** `enqueued` lists every insert ever made, indexed by id, also of transactions that are still
      open or rolled back; `outcome` holds the finished transactions; `rows` is the committed
      table; `aborts` counts the drains that ended without a commit. */
  datatype State = State(enqueued: seq<Enqueued>, outcome: map<nat, bool>, rows: map<nat, Row>,
                         relays: map<nat, Relay>, published: seq<Message>, aborts: nat)

  datatype Action =
    | Enqueue(tx: nat, event: Event)
    | Finish(tx: nat, commits: bool)   // the producer's COMMIT or ROLLBACK takes effect
    | Claim(relay: nat, limit: int)
    | Publish(relay: nat)
    | Stamp(relay: nat)
    | Commit(relay: nat)
    | Abort(relay: nat)                // `publish` raised, the process died, or COMMIT was lost

  const INITIAL := State([], map[], map[], map[], [], 0)

  predicate Holds(ms: seq<Message>, id: nat) {
    exists i :: 0 <= i < |ms| && ms[i].id == id
  }

  predicate Claimable(s: State, id: nat) {
    id in s.rows && !s.rows[id].sent && forall r :: r in s.relays ==> !Holds(s.relays[r].claimed, id)
  }

  /** `SELECT ... WHERE sent_at IS NULL ORDER BY id FOR UPDATE SKIP LOCKED LIMIT n`, from `id` on. */
  function ClaimFrom(s: State, id: nat, limit: int): (ms: seq<Message>)
    decreases |s.enqueued| - id
  {
    if id >= |s.enqueued| || limit <= 0 then []
    else if Claimable(s, id) then [Message(id, s.rows[id].event)] + ClaimFrom(s, id + 1, limit - 1)
    else ClaimFrom(s, id + 1, limit)
  }

  function MarkSent(rows: map<nat, Row>, ms: seq<Message>): map<nat, Row> {
    map id | id in rows :: if Holds(ms, id) then rows[id].(sent := true) else rows[id]
  }

  function Inserted(s: State, tx: nat): map<nat, Row> {
    map id | 0 <= id < |s.enqueued| && s.enqueued[id].tx == tx :: Row(s.enqueued[id].event, false)
  }

  /** None: the step cannot happen here. */
  function Next(s: State, a: Action): Option<State> {
    match a
    case Enqueue(tx, event) =>
      if tx in s.outcome then None else Some(s.(enqueued := s.enqueued + [Enqueued(tx, event)]))
    case Finish(tx, commits) =>
      if tx in s.outcome then None
      else Some(s.(outcome := s.outcome[tx := commits],
                   rows := if commits then s.rows + Inserted(s, tx) else s.rows))
    case Claim(r, limit) =>
      if r in s.relays then None
      else
        var ms := ClaimFrom(s, 0, limit);
        if ms == [] then Some(s) else Some(s.(relays := s.relays[r := Relay(ms, 0, false)]))
    case Publish(r) =>
      if r !in s.relays || s.relays[r].done >= |s.relays[r].claimed| then None
      else
        var relay := s.relays[r];
        Some(s.(published := s.published + [relay.claimed[relay.done]],
                relays := s.relays[r := relay.(done := relay.done + 1)]))
    case Stamp(r) =>
      if r !in s.relays || s.relays[r].done != |s.relays[r].claimed| then None
      else Some(s.(relays := s.relays[r := s.relays[r].(stamped := true)]))
    case Commit(r) =>
      if r !in s.relays || !s.relays[r].stamped then None
      else Some(s.(rows := MarkSent(s.rows, s.relays[r].claimed), relays := s.relays - {r}))
    case Abort(r) =>
      if r !in s.relays then None
      else Some(s.(relays := s.relays - {r}, aborts := s.aborts + 1))
  }

  function Exec(s: State, actions: seq<Action>): Option<State>
    decreases |actions|
  {
    if actions == [] then Some(s)
    else match Next(s, actions[0])
         case Some(s') => Exec(s', actions[1..])
         case None => None
  }

  lemma {:induction false} ExecConcat(s: State, a: seq<Action>, b: seq<Action>)
    ensures Exec(s, a + b) == match Exec(s, a)
                              case Some(s') => Exec(s', b)
                              case None => None
    decreases |a|
  {
    if a == [] {
      assert a + b == b;
    } else {
      assert (a + b)[0] == a[0] && (a + b)[1..] == a[1..] + b;
      if Next(s, a[0]).Some? {
        ExecConcat(Next(s, a[0]).value, a[1..], b);
      }
    }
  }

  // -- invariants --

  predicate Committed(s: State, tx: nat) {
    tx in s.outcome && s.outcome[tx]
  }

  /** The table holds exactly the inserts of committed transactions, with their contents. */
  ghost predicate RowsMatch(s: State) {
    && (forall id :: id in s.rows ==>
          id < |s.enqueued| && Committed(s, s.enqueued[id].tx) && s.rows[id].event == s.enqueued[id].event)
    && forall id :: 0 <= id < |s.enqueued| && Committed(s, s.enqueued[id].tx) ==> id in s.rows
  }

  /** The message of a committed row. */
  predicate Genuine(s: State, m: Message) {
    m.id in s.rows && m.event == s.rows[m.id].event
  }

  predicate Sorted(ms: seq<Message>) {
    forall i, j :: 0 <= i < j < |ms| ==> ms[i].id < ms[j].id
  }

  ghost predicate RelayMatches(s: State, relay: Relay) {
    && relay.claimed != [] && Sorted(relay.claimed)
    && relay.done <= |relay.claimed| && (relay.stamped ==> relay.done == |relay.claimed|)
    && (forall i :: 0 <= i < |relay.claimed| ==>
          Genuine(s, relay.claimed[i]) && !s.rows[relay.claimed[i].id].sent)
    && forall i :: 0 <= i < relay.done ==> relay.claimed[i] in s.published
  }

  /** SKIP LOCKED: no row is claimed by two relays at once. */
  ghost predicate LocksDisjoint(s: State) {
    forall q, r, id ::
      q in s.relays && r in s.relays && Holds(s.relays[q].claimed, id) && Holds(s.relays[r].claimed, id) ==> q == r
  }

  ghost predicate PublishedGenuine(s: State) {
    forall m :: m in s.published ==> Genuine(s, m)
  }

  ghost predicate SentWasPublished(s: State) {
    forall id :: id in s.rows && s.rows[id].sent ==> Message(id, s.rows[id].event) in s.published
  }

  ghost predicate Inv(s: State) {
    && RowsMatch(s) && PublishedGenuine(s) && SentWasPublished(s) && LocksDisjoint(s)
    && forall r :: r in s.relays ==> RelayMatches(s, s.relays[r])
  }

  lemma {:induction false} ClaimIsOrdered(s: State, id: nat, limit: int)
    ensures var ms := ClaimFrom(s, id, limit);
            && Sorted(ms) && |ms| <= (if limit < 0 then 0 else limit)
            && forall i :: 0 <= i < |ms| ==> id <= ms[i].id
    decreases |s.enqueued| - id
  {
    if id < |s.enqueued| && limit > 0 {
      if Claimable(s, id) {
        ClaimIsOrdered(s, id + 1, limit - 1);
      } else {
        ClaimIsOrdered(s, id + 1, limit);
      }
    }
  }

  predicate Takes(s: State, m: Message) {
    Claimable(s, m.id) && Genuine(s, m)
  }

  ghost predicate AllTaken(s: State, ms: seq<Message>) {
    forall i :: 0 <= i < |ms| ==> Takes(s, ms[i])
  }

  lemma {:induction false} ClaimIsClaimable(s: State, id: nat, limit: int)
    ensures AllTaken(s, ClaimFrom(s, id, limit))
    decreases |s.enqueued| - id
  {
    if id < |s.enqueued| && limit > 0 {
      if Claimable(s, id) {
        ClaimIsClaimable(s, id + 1, limit - 1);
        assert Takes(s, Message(id, s.rows[id].event));
      } else {
        ClaimIsClaimable(s, id + 1, limit);
      }
    }
  }

  /** What a claim takes: claimable rows in id order, at most `limit` of them. */
  lemma ClaimTakes(s: State, limit: int)
    ensures var ms := ClaimFrom(s, 0, limit);
            && Sorted(ms) && |ms| <= (if limit < 0 then 0 else limit)
            && AllTaken(s, ms)
  {
    ClaimIsOrdered(s, 0, limit);
    ClaimIsClaimable(s, 0, limit);
  }

  /** And it passes no claimable row over: one that is left behind comes after a full batch. */
  lemma {:induction false} ClaimTakesFirst(s: State, id: nat, limit: int, k: nat)
    requires id <= k < |s.enqueued| && Claimable(s, k) && limit > 0
    ensures var ms := ClaimFrom(s, id, limit);
            ms != [] && (Holds(ms, k) || (|ms| == limit && ms[|ms| - 1].id < k))
    decreases k - id
  {
    var ms := ClaimFrom(s, id, limit);
    if Claimable(s, id) {
      var rest := ClaimFrom(s, id + 1, limit - 1);
      assert ms[0] == Message(id, s.rows[id].event) && ms[1..] == rest;
      if id == k {
        assert ms[0].id == k;
      } else if limit > 1 {
        ClaimTakesFirst(s, id + 1, limit - 1, k);
        if Holds(rest, k) {
          var i :| 0 <= i < |rest| && rest[i].id == k;
          assert ms[i + 1].id == k;
        }
      }
    } else {
      ClaimTakesFirst(s, id + 1, limit, k);
    }
  }

  lemma ClaimKeepsInv(s: State, r: nat, limit: int)
    requires Inv(s) && Next(s, Claim(r, limit)).Some?
    ensures Inv(Next(s, Claim(r, limit)).value)
  {
    var ms := ClaimFrom(s, 0, limit);
    ClaimTakes(s, limit);
    if ms != [] {
      var relay := Relay(ms, 0, false);
      var t := s.(relays := s.relays[r := relay]);
      assert RelayMatches(t, relay);
      forall q | q in t.relays ensures RelayMatches(t, t.relays[q]) {
        if q != r {
          assert RelayMatches(s, s.relays[q]);
        }
      }
      assert LocksDisjoint(t) by {
        forall id | Holds(relay.claimed, id) ensures forall q :: q in s.relays ==> !Holds(s.relays[q].claimed, id) {
          var i :| 0 <= i < |ms| && ms[i].id == id;
          assert Takes(s, ms[i]);
        }
      }
    }
  }

  lemma StillMatches(s: State, t: State, relay: Relay)
    requires RelayMatches(s, relay)
    requires forall i :: 0 <= i < |relay.claimed| ==>
               relay.claimed[i].id in t.rows && t.rows[relay.claimed[i].id] == s.rows[relay.claimed[i].id]
    requires s.published <= t.published
    ensures RelayMatches(t, relay)
  {
    forall i | 0 <= i < relay.done ensures relay.claimed[i] in t.published {
      var k :| 0 <= k < |s.published| && s.published[k] == relay.claimed[i];
      assert t.published[k] == relay.claimed[i];
    }
  }

  /** A step that leaves the table alone and only advances or drops relays. */
  lemma QuietStepKeepsInv(s: State, t: State)
    requires Inv(s) && t.enqueued == s.enqueued && t.outcome == s.outcome && t.rows == s.rows
    requires s.published <= t.published && PublishedGenuine(t)
    requires forall r :: r in t.relays ==>
               r in s.relays && t.relays[r].claimed == s.relays[r].claimed && RelayMatches(t, t.relays[r])
    ensures Inv(t)
  {
    forall id | id in t.rows && t.rows[id].sent ensures Message(id, t.rows[id].event) in t.published {
      var k :| 0 <= k < |s.published| && s.published[k] == Message(id, s.rows[id].event);
      assert t.published[k] == s.published[k];
    }
  }

  /** A commit adds the transaction's own inserts and touches no row that is there. */
  lemma FinishAddsRows(s: State, tx: nat, commits: bool)
    requires RowsMatch(s) && Next(s, Finish(tx, commits)).Some?
    ensures var t := Next(s, Finish(tx, commits)).value;
            && RowsMatch(t)
            && (forall id :: id in s.rows ==> id in t.rows && t.rows[id] == s.rows[id])
            && forall id :: id in t.rows && id !in s.rows ==> !t.rows[id].sent
  {
    var t := Next(s, Finish(tx, commits)).value;
    forall id | id in s.rows ensures id !in Inserted(s, tx) {
      assert Committed(s, s.enqueued[id].tx);
    }
  }

  lemma FinishKeepsInv(s: State, tx: nat, commits: bool)
    requires Inv(s) && Next(s, Finish(tx, commits)).Some?
    ensures Inv(Next(s, Finish(tx, commits)).value)
  {
    var t := Next(s, Finish(tx, commits)).value;
    FinishAddsRows(s, tx, commits);
    forall r | r in t.relays ensures RelayMatches(t, t.relays[r]) {
      StillMatches(s, t, s.relays[r]);
    }
  }

  lemma PublishKeepsInv(s: State, r: nat)
    requires Inv(s) && Next(s, Publish(r)).Some?
    ensures Inv(Next(s, Publish(r)).value)
  {
    var t := Next(s, Publish(r)).value;
    var relay := s.relays[r];
    assert RelayMatches(s, relay);
    assert t.published[|s.published|] == relay.claimed[relay.done];
    forall q | q in t.relays ensures RelayMatches(t, t.relays[q]) {
      StillMatches(s, t, s.relays[q]);
    }
    QuietStepKeepsInv(s, t);
  }

  lemma CommitKeepsInv(s: State, r: nat)
    requires Inv(s) && Next(s, Commit(r)).Some?
    ensures Inv(Next(s, Commit(r)).value)
  {
    var t := Next(s, Commit(r)).value;
    var relay := s.relays[r];
    assert RelayMatches(s, relay);
    forall q | q in t.relays ensures RelayMatches(t, t.relays[q]) {
      var other := s.relays[q];
      assert RelayMatches(s, other);
      forall i | 0 <= i < |other.claimed| ensures t.rows[other.claimed[i].id] == s.rows[other.claimed[i].id] {
        assert Holds(other.claimed, other.claimed[i].id);
        assert !Holds(relay.claimed, other.claimed[i].id);
      }
      StillMatches(s, t, other);
    }
    forall id | id in t.rows && t.rows[id].sent ensures Message(id, t.rows[id].event) in t.published {
      if !s.rows[id].sent {
        var i :| 0 <= i < |relay.claimed| && relay.claimed[i].id == id;
        assert Genuine(s, relay.claimed[i]);
        assert relay.claimed[i] == Message(id, s.rows[id].event);
      }
    }
  }

  lemma StepKeepsInv(s: State, a: Action)
    requires Inv(s) && Next(s, a).Some?
    ensures Inv(Next(s, a).value)
  {
    var t := Next(s, a).value;
    match a
    case Claim(r, limit) => ClaimKeepsInv(s, r, limit);
    case Finish(tx, commits) => FinishKeepsInv(s, tx, commits);
    case Publish(r) => PublishKeepsInv(s, r);
    case Commit(r) => CommitKeepsInv(s, r);
    case Enqueue(_, _) =>
      forall r | r in t.relays ensures RelayMatches(t, t.relays[r]) {
        StillMatches(s, t, s.relays[r]);
      }
    case Stamp(q) =>
      forall r | r in t.relays ensures RelayMatches(t, t.relays[r]) {
        StillMatches(s, t, s.relays[r]);
      }
      QuietStepKeepsInv(s, t);
    case Abort(q) =>
      forall r | r in t.relays ensures RelayMatches(t, t.relays[r]) {
        StillMatches(s, t, s.relays[r]);
      }
      QuietStepKeepsInv(s, t);
  }

  lemma {:induction false} RunKeepsInv(s: State, actions: seq<Action>)
    requires Inv(s) && Exec(s, actions).Some?
    ensures Inv(Exec(s, actions).value)
    decreases |actions|
  {
    if actions != [] {
      StepKeepsInv(s, actions[0]);
      RunKeepsInv(Next(s, actions[0]).value, actions[1..]);
    }
  }

  /** Main result. However producers and relays interleave, and wherever they die: the table holds
      exactly the inserts of committed transactions, only those are ever published, a row marked sent
      was published, and two relays never claim the same row. */
  lemma OutboxIsSafe(actions: seq<Action>)
    requires Exec(INITIAL, actions).Some?
    ensures var s := Exec(INITIAL, actions).value;
            && (forall id: nat :: id in s.rows <==> id < |s.enqueued| && Committed(s, s.enqueued[id].tx))
            && (forall m :: m in s.published ==> m.id in s.rows && m.event == s.enqueued[m.id].event)
            && SentWasPublished(s) && LocksDisjoint(s)
  {
    RunKeepsInv(INITIAL, actions);
    var s := Exec(INITIAL, actions).value;
    forall m | m in s.published ensures m.id in s.rows && m.event == s.enqueued[m.id].event {
      assert Genuine(s, m);
    }
  }

  /** A relay's commit marks exactly the rows it published. */
  lemma CommitMarks(s: State, r: nat)
    requires Inv(s) && Next(s, Commit(r)).Some?
    ensures var t := Next(s, Commit(r)).value;
            && (forall i :: 0 <= i < |s.relays[r].claimed| ==>
                  s.relays[r].claimed[i] in t.published
                  && s.relays[r].claimed[i].id in t.rows && t.rows[s.relays[r].claimed[i].id].sent)
            && forall id :: id in s.rows && !Holds(s.relays[r].claimed, id) ==> id in t.rows && t.rows[id] == s.rows[id]
  {
    var relay := s.relays[r];
    assert RelayMatches(s, relay);
    forall i | 0 <= i < |relay.claimed|
      ensures relay.claimed[i] in s.published && relay.claimed[i].id in s.rows
      ensures Holds(relay.claimed, relay.claimed[i].id)
    {
      assert Genuine(s, relay.claimed[i]);
    }
  }

  /** Nothing is ever unpublished, deleted or marked unsent again. */
  ghost predicate Advances(s: State, t: State) {
    && s.enqueued <= t.enqueued && s.published <= t.published
    && forall id :: id in s.rows ==>
         id in t.rows && t.rows[id].event == s.rows[id].event && (s.rows[id].sent ==> t.rows[id].sent)
  }

  lemma StepAdvances(s: State, a: Action)
    requires Inv(s) && Next(s, a).Some?
    ensures Advances(s, Next(s, a).value)
  {
    if a.Finish? {
      FinishAddsRows(s, a.tx, a.commits);
    }
  }

  lemma {:induction false} RunAdvances(s: State, actions: seq<Action>)
    requires Inv(s) && Exec(s, actions).Some?
    ensures Advances(s, Exec(s, actions).value)
    decreases |actions|
  {
    if actions != [] {
      StepAdvances(s, actions[0]);
      StepKeepsInv(s, actions[0]);
      RunAdvances(Next(s, actions[0]).value, actions[1..]);
    }
  }

  // -- how often a message is published --

  /** Sent for good, or published by a relay that is still at work. */
  ghost predicate Settled(s: State, id: nat) {
    || (id in s.rows && s.rows[id].sent)
    || exists r :: r in s.relays && PublishedBy(s.relays[r], id)
  }

  predicate PublishedBy(relay: Relay, id: nat) {
    exists i :: 0 <= i < |relay.claimed| && i < relay.done && relay.claimed[i].id == id
  }

  function Times(s: State, m: Message): nat {
    multiset(s.published)[m]
  }

  /** If there is a row of that id, it has this event. */
  predicate Fits(s: State, m: Message) {
    m.id in s.rows ==> s.rows[m.id].event == m.event
  }

  ghost function Balance(s: State, id: nat): nat {
    if Settled(s, id) then 1 else 0
  }

  /** Whether the step gives up a publication of this message. */
  predicate GivesUp(s: State, a: Action, id: nat) {
    a.Abort? && a.relay in s.relays && PublishedBy(s.relays[a.relay], id)
  }

  /** How many publications of a message are given up in a run: it aborts after them. */
  function GivenUp(s: State, actions: seq<Action>, id: nat): nat
    requires Exec(s, actions).Some?
    decreases |actions|
  {
    if actions == [] then 0
    else (if GivesUp(s, actions[0], id) then 1 else 0) + GivenUp(Next(s, actions[0]).value, actions[1..], id)
  }

  lemma PublishedIsHeld(relay: Relay, id: nat)
    ensures PublishedBy(relay, id) ==> Holds(relay.claimed, id)
  {}

  lemma HeldIsNotSettled(s: State, r: nat, id: nat)
    requires LocksDisjoint(s) && r in s.relays && RelayMatches(s, s.relays[r])
    requires Holds(s.relays[r].claimed, id) && !PublishedBy(s.relays[r], id)
    ensures !Settled(s, id)
  {
    forall q | q in s.relays ensures !PublishedBy(s.relays[q], id) {
      PublishedIsHeld(s.relays[q], id);
    }
  }

  lemma PublishCounts(s: State, r: nat, m: Message)
    requires Inv(s) && Next(s, Publish(r)).Some? && Fits(s, m)
    ensures var t := Next(s, Publish(r)).value;
            Times(t, m) + Balance(s, m.id) == Times(s, m) + Balance(t, m.id)
  {
    var t := Next(s, Publish(r)).value;
    var relay := s.relays[r];
    var now := relay.claimed[relay.done];
    assert RelayMatches(s, relay) && Genuine(s, now);
    if m.id == now.id {
      assert m == now && Holds(relay.claimed, m.id);
      HeldIsNotSettled(s, r, m.id);
      assert PublishedBy(t.relays[r], m.id);
    } else {
      OthersStaySettled(s, r, m.id);
    }
  }

  lemma OthersStaySettled(s: State, r: nat, id: nat)
    requires Inv(s) && Next(s, Publish(r)).Some? && s.relays[r].claimed[s.relays[r].done].id != id
    ensures Settled(s, id) <==> Settled(Next(s, Publish(r)).value, id)
  {
    var t := Next(s, Publish(r)).value;
    OneMoreDone(s.relays[r], id);
    forall q | q in s.relays ensures PublishedBy(s.relays[q], id) <==> PublishedBy(t.relays[q], id) {}
  }

  lemma OneMoreDone(relay: Relay, id: nat)
    requires relay.done < |relay.claimed| && relay.claimed[relay.done].id != id
    ensures PublishedBy(relay.(done := relay.done + 1), id) <==> PublishedBy(relay, id)
  {}

  /** An abort takes back what the relay had published, and nothing else. */
  lemma AbortCounts(s: State, r: nat, id: nat)
    requires Inv(s) && r in s.relays
    ensures Balance(s, id) == Balance(Next(s, Abort(r)).value, id) + if GivesUp(s, Abort(r), id) then 1 else 0
  {
    var t := Next(s, Abort(r)).value;
    assert RelayMatches(s, s.relays[r]);
    if PublishedBy(s.relays[r], id) {
      var i :| 0 <= i < |s.relays[r].claimed| && i < s.relays[r].done && s.relays[r].claimed[i].id == id;
      assert Genuine(s, s.relays[r].claimed[i]);
      PublishedIsHeld(s.relays[r], id);
      forall q | q in t.relays ensures !PublishedBy(t.relays[q], id) {
        PublishedIsHeld(s.relays[q], id);
      }
    } else if exists q :: q in s.relays && PublishedBy(s.relays[q], id) {
      var q :| q in s.relays && PublishedBy(s.relays[q], id);
      assert q in t.relays && PublishedBy(t.relays[q], id);
    }
  }

  /** A commit makes what the relay had published sent. */
  lemma CommitCounts(s: State, r: nat, id: nat)
    requires Inv(s) && Next(s, Commit(r)).Some?
    ensures Settled(s, id) <==> Settled(Next(s, Commit(r)).value, id)
  {
    var t, relay := Next(s, Commit(r)).value, s.relays[r];
    assert RelayMatches(s, relay);
    if Holds(relay.claimed, id) {
      var i :| 0 <= i < |relay.claimed| && relay.claimed[i].id == id;
      assert Genuine(s, relay.claimed[i]) && i < relay.done;
      assert PublishedBy(relay, id) && id in t.rows && t.rows[id].sent;
    } else {
      PublishedIsHeld(relay, id);
      assert id in s.rows ==> t.rows[id] == s.rows[id];
      assert forall q :: q in t.relays <==> q in s.relays && q != r;
    }
  }

  /** A claim has published nothing yet. */
  lemma ClaimCounts(s: State, r: nat, limit: int, id: nat)
    requires Next(s, Claim(r, limit)).Some?
    ensures Settled(s, id) <==> Settled(Next(s, Claim(r, limit)).value, id)
  {
    var t := Next(s, Claim(r, limit)).value;
    forall q | q in t.relays ensures PublishedBy(t.relays[q], id) <==> q in s.relays && PublishedBy(s.relays[q], id) {}
    forall q | q in s.relays ensures q in t.relays && t.relays[q] == s.relays[q] {}
  }

  lemma StampCounts(s: State, r: nat, id: nat)
    requires Next(s, Stamp(r)).Some?
    ensures Settled(s, id) <==> Settled(Next(s, Stamp(r)).value, id)
  {
    var t := Next(s, Stamp(r)).value;
    forall q | q in s.relays ensures PublishedBy(t.relays[q], id) <==> PublishedBy(s.relays[q], id) {}
  }

  lemma FinishCounts(s: State, tx: nat, commits: bool, id: nat)
    requires Inv(s) && Next(s, Finish(tx, commits)).Some?
    ensures Settled(s, id) <==> Settled(Next(s, Finish(tx, commits)).value, id)
  {
    FinishAddsRows(s, tx, commits);
  }

  lemma StepCounts(s: State, a: Action, m: Message)
    requires Inv(s) && Next(s, a).Some? && Fits(s, m)
    ensures var t := Next(s, a).value;
            Times(t, m) + Balance(s, m.id)
            == Times(s, m) + Balance(t, m.id) + if GivesUp(s, a, m.id) then 1 else 0
  {
    match a
    case Enqueue(_, _) =>
    case Finish(tx, commits) => FinishCounts(s, tx, commits, m.id);
    case Claim(r, limit) => ClaimCounts(s, r, limit, m.id);
    case Publish(r) => PublishCounts(s, r, m);
    case Stamp(r) => StampCounts(s, r, m.id);
    case Commit(r) => CommitCounts(s, r, m.id);
    case Abort(r) => AbortCounts(s, r, m.id);
  }

  lemma FitsBefore(s: State, a: Action, m: Message)
    requires Inv(s) && Next(s, a).Some? && Fits(Next(s, a).value, m)
    ensures Fits(s, m)
  {
    if a.Finish? {
      FinishAddsRows(s, a.tx, a.commits);
    }
  }

  lemma {:induction false} RunCounts(s: State, actions: seq<Action>, m: Message)
    requires Inv(s) && Exec(s, actions).Some? && Fits(Exec(s, actions).value, m)
    ensures var t := Exec(s, actions).value;
            && Fits(s, m)
            && Times(t, m) + Balance(s, m.id) == Times(s, m) + Balance(t, m.id) + GivenUp(s, actions, m.id)
            && GivenUp(s, actions, m.id) <= t.aborts - s.aborts
    decreases |actions|
  {
    if actions != [] {
      StepKeepsInv(s, actions[0]);
      RunCounts(Next(s, actions[0]).value, actions[1..], m);
      FitsBefore(s, actions[0], m);
      StepCounts(s, actions[0], m);
    }
  }

  /** Main result: a message of a row is published exactly once for every drain that ended without a
      commit after publishing it, and once more if it is sent or a relay at work has published it; any
      other message never. */
  lemma RepeatsArePaidFor(actions: seq<Action>, m: Message)
    requires Exec(INITIAL, actions).Some?
    ensures var s := Exec(INITIAL, actions).value;
            && Times(s, m) == (if Fits(s, m) then GivenUp(INITIAL, actions, m.id) + Balance(s, m.id) else 0)
            && (Fits(s, m) ==> GivenUp(INITIAL, actions, m.id) <= s.aborts)
  {
    var s := Exec(INITIAL, actions).value;
    if Fits(s, m) {
      RunCounts(INITIAL, actions, m);
    } else {
      RunKeepsInv(INITIAL, actions);
      assert m in s.published ==> Genuine(s, m);
    }
  }

  predicate NoAborts(actions: seq<Action>) {
    forall i :: 0 <= i < |actions| ==> !actions[i].Abort?
  }

  lemma {:induction false} NothingGivenUp(s: State, actions: seq<Action>, id: nat)
    requires Exec(s, actions).Some? && NoAborts(actions)
    ensures GivenUp(s, actions, id) == 0
    decreases |actions|
  {
    if actions != [] {
      assert !actions[0].Abort?;
      NothingGivenUp(Next(s, actions[0]).value, actions[1..], id);
    }
  }

  /** As long as no drain fails, an event is published exactly once if it is sent or a relay at work has
      published it, and else not at all. */
  lemma ExactlyOnceWithoutAborts(actions: seq<Action>, id: nat)
    requires Exec(INITIAL, actions).Some? && NoAborts(actions)
    requires id in Exec(INITIAL, actions).value.rows
    ensures var s := Exec(INITIAL, actions).value;
            && Times(s, Message(id, s.rows[id].event)) == Balance(s, id)
            && (s.rows[id].sent ==> Balance(s, id) == 1)
  {
    var s := Exec(INITIAL, actions).value;
    RepeatsArePaidFor(actions, Message(id, s.rows[id].event));
    NothingGivenUp(INITIAL, actions, id);
  }

  /** A failed drain does repeat what it had published. */
  lemma AbortRepeats()
    ensures var e := Event("t", "p");
            var run := Exec(INITIAL, [Enqueue(7, e), Finish(7, true), Claim(0, 100), Publish(0), Abort(0),
                                      Claim(0, 100), Publish(0)]);
            run.Some? && run.value.published == [Message(0, e), Message(0, e)]
  {
    var e := Event("t", "p");
    var m := Message(0, e);
    var s1 := Next(INITIAL, Enqueue(7, e)).value;
    assert Inserted(s1, 7) == map[0 := Row(e, false)];
    var s2 := Next(s1, Finish(7, true)).value;
    SoleClaim(s2, m);
    var s3 := Next(s2, Claim(0, 100)).value;
    var s4 := Next(s3, Publish(0)).value;
    var s5 := Next(s4, Abort(0)).value;
    SoleClaim(s5, m);
    var s6 := Next(s5, Claim(0, 100)).value;
    var s7 := Next(s6, Publish(0)).value;
    var last := [Publish(0)];
    Onward(s6, last[0], s7, []);
    Onward(s5, Claim(0, 100), s6, last);
    Onward(s4, Abort(0), s5, [Claim(0, 100)] + last);
    var tail := [Abort(0)] + ([Claim(0, 100)] + last);
    Onward(s3, Publish(0), s4, tail);
    Onward(s2, Claim(0, 100), s3, [Publish(0)] + tail);
    Onward(s1, Finish(7, true), s2, [Claim(0, 100)] + ([Publish(0)] + tail));
    Onward(INITIAL, Enqueue(7, e), s1, [Finish(7, true)] + ([Claim(0, 100)] + ([Publish(0)] + tail)));
    assert [Enqueue(7, e)] + ([Finish(7, true)] + ([Claim(0, 100)] + ([Publish(0)] + tail)))
        == [Enqueue(7, e), Finish(7, true), Claim(0, 100), Publish(0), Abort(0), Claim(0, 100), Publish(0)];
  }

  lemma Onward(s: State, a: Action, t: State, rest: seq<Action>)
    requires Next(s, a) == Some(t)
    ensures Exec(s, [a] + rest) == Exec(t, rest)
  {
    assert ([a] + rest)[1..] == rest;
  }

  lemma SoleClaim(s: State, m: Message)
    requires |s.enqueued| == 1 && s.rows == map[0 := Row(m.event, false)] && s.relays == map[] && m.id == 0
    ensures ClaimFrom(s, 0, 100) == [m]
  {
    assert Claimable(s, 0);
    assert ClaimFrom(s, 1, 99) == [];
  }

  // -- nothing is lost --

  predicate SameLimit(actions: seq<Action>, limit: int) {
    forall i :: 0 <= i < |actions| && actions[i].Claim? ==> actions[i].limit == limit
  }

  lemma {:induction false} AbortAll(s: State) returns (actions: seq<Action>)
    ensures Exec(s, actions) == Some(s.(relays := map[], aborts := s.aborts + |s.relays|))
    ensures forall i :: 0 <= i < |actions| ==> !actions[i].Claim?
    decreases |s.relays|
  {
    if s.relays == map[] {
      actions := [];
    } else {
      var r :| r in s.relays;
      var t := Next(s, Abort(r)).value;
      assert t.relays.Keys == s.relays.Keys - {r};
      assert |t.relays.Keys| == |s.relays.Keys| - 1;
      var rest := AbortAll(t);
      actions := [Abort(r)] + rest;
      assert actions[1..] == rest;
    }
  }

  lemma {:induction false} PublishAll(s: State, r: nat) returns (actions: seq<Action>)
    requires r in s.relays && s.relays[r].done <= |s.relays[r].claimed|
    ensures var relay := s.relays[r];
            Exec(s, actions) == Some(s.(published := s.published + relay.claimed[relay.done..],
                                        relays := s.relays[r := relay.(done := |relay.claimed|)]))
    ensures forall i :: 0 <= i < |actions| ==> !actions[i].Claim?
    decreases |s.relays[r].claimed| - s.relays[r].done
  {
    var relay := s.relays[r];
    if relay.done == |relay.claimed| {
      actions := [];
      assert s.relays[r := relay.(done := |relay.claimed|)] == s.relays;
      assert s.published + relay.claimed[relay.done..] == s.published;
    } else {
      var t := Next(s, Publish(r)).value;
      var rest := PublishAll(t, r);
      actions := [Publish(r)] + rest;
      assert actions[1..] == rest;
      assert t.published + relay.claimed[relay.done + 1..] == s.published + relay.claimed[relay.done..];
      assert t.relays[r := relay.(done := |relay.claimed|)] == s.relays[r := relay.(done := |relay.claimed|)];
    }
  }

  /** One undisturbed drain by relay 0. */
  lemma DrainOnce(s: State, limit: int) returns (actions: seq<Action>)
    requires s.relays == map[] && ClaimFrom(s, 0, limit) != []
    ensures var ms := ClaimFrom(s, 0, limit);
            Exec(s, actions) == Some(s.(rows := MarkSent(s.rows, ms), published := s.published + ms))
    ensures SameLimit(actions, limit)
  {
    var ms := ClaimFrom(s, 0, limit);
    var claimed := Next(s, Claim(0, limit)).value;
    var publishes := PublishAll(claimed, 0);
    var done := Exec(claimed, publishes).value;
    assert ms[0..] == ms;
    var stamped := Next(done, Stamp(0)).value;
    assert stamped.relays[0] == Relay(ms, |ms|, true);
    var end := Next(stamped, Commit(0)).value;
    assert stamped.relays - {0} == map[];
    var tail := [Stamp(0), Commit(0)];
    assert tail[1..] == [Commit(0)] && tail[1..][1..] == [];
    assert Exec(stamped, tail[1..]) == Exec(end, tail[1..][1..]);
    assert Exec(done, tail) == Some(end);
    ExecConcat(claimed, publishes, tail);
    actions := [Claim(0, limit)] + (publishes + tail);
    assert actions[1..] == publishes + tail;
  }

  function UnsentUpTo(s: State, id: nat): set<nat> {
    set k | 0 <= k <= id && k in s.rows && !s.rows[k].sent
  }

  /** With a positive batch size, drains reach any committed event after finitely many rounds. */
  lemma {:induction false} DrainUntil(s: State, id: nat, limit: int) returns (actions: seq<Action>)
    requires Inv(s) && s.relays == map[] && id in s.rows && limit > 0
    ensures Exec(s, actions).Some?
    ensures var t := Exec(s, actions).value; id in t.rows && t.rows[id].sent
    ensures SameLimit(actions, limit)
    decreases |UnsentUpTo(s, id)|
  {
    if s.rows[id].sent {
      actions := [];
    } else {
      assert Claimable(s, id);
      ClaimTakesFirst(s, 0, limit, id);
      ClaimTakes(s, limit);
      var ms := ClaimFrom(s, 0, limit);
      var round := DrainOnce(s, limit);
      RunKeepsInv(s, round);
      var t := Exec(s, round).value;
      assert Takes(s, ms[0]);
      assert ms[0].id <= id by {
        if Holds(ms, id) {
          var i :| 0 <= i < |ms| && ms[i].id == id;
        }
      }
      assert Holds(ms, ms[0].id);
      assert UnsentUpTo(t, id) <= UnsentUpTo(s, id) - {ms[0].id};
      SmallerSet(UnsentUpTo(t, id), UnsentUpTo(s, id), ms[0].id);
      var rest := DrainUntil(t, id, limit);
      ExecConcat(s, round, rest);
      actions := round + rest;
    }
  }

  lemma SmallerSet(a: set<nat>, b: set<nat>, x: nat)
    requires x in b && a <= b - {x}
    ensures |a| < |b|
  {
    assert a + (b - {x} - a) == b - {x};
  }

  /** Main result: whatever has happened, and even if every relay dies now, restarted relays publish
      and mark every committed event. */
  lemma EveryEventCanStillBeSent(s: State, id: nat, limit: int) returns (actions: seq<Action>)
    requires Inv(s) && id in s.rows && limit > 0
    ensures Exec(s, actions).Some?
    ensures var t := Exec(s, actions).value;
            id in t.rows && t.rows[id].sent && Message(id, t.rows[id].event) in t.published
    ensures SameLimit(actions, limit)
  {
    var stop := AbortAll(s);
    RunKeepsInv(s, stop);
    var idle := Exec(s, stop).value;
    var go := DrainUntil(idle, id, limit);
    ExecConcat(s, stop, go);
    actions := stop + go;
    RunKeepsInv(s, actions);
  }

  /** The hypothesis is needed: a batch size of zero or less never publishes anything. */
  lemma {:induction false} NoLimitNoPublishing(s: State, actions: seq<Action>)
    requires s.relays == map[] && Exec(s, actions).Some?
    requires forall i :: 0 <= i < |actions| && actions[i].Claim? ==> actions[i].limit <= 0
    ensures Exec(s, actions).value.published == s.published
    decreases |actions|
  {
    if actions != [] {
      assert actions[0].Claim? ==> ClaimFrom(s, 0, actions[0].limit) == [];
      NoLimitNoPublishing(Next(s, actions[0]).value, actions[1..]);
    }
  }
}
