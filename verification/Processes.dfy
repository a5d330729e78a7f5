/** `enqueue`, `drain` and `ack_after_commit` as code, run while every other process takes its own
    steps in between. */
module Processes {
  import opened Wrappers
  import opened Delivery
  import Inbox
  import Outbox

  datatype Actor = Relay(relay: nat) | Consumer(worker: nat)

  predicate IsBy(a: Action, me: Actor) {
    match a
    case Produce(out) => me.Relay? && !out.Enqueue? && !out.Finish? && out.relay == me.relay
    case Consume(inn) => me.Consumer? && inn.worker == me.worker
  }

  /** The steps that `me` took. */
  function By(log: seq<Action>, me: Actor): seq<Action> {
    if log == [] then []
    else By(log[..|log| - 1], me) + if IsBy(log[|log| - 1], me) then [log[|log| - 1]] else []
  }

  /** A transaction of `me` is as it was. */
  predicate SameFor(me: Actor, s: State, t: State) {
    match me
    case Relay(r) => (r in s.outbox.relays) == (r in t.outbox.relays)
                     && (r in s.outbox.relays ==> s.outbox.relays[r] == t.outbox.relays[r])
    case Consumer(w) => (w in s.inbox.workers) == (w in t.inbox.workers)
                        && (w in s.inbox.workers ==> s.inbox.workers[w] == t.inbox.workers[w])
  }

  function Publishes(me: nat, n: nat): (r: seq<Outbox.Action>)
    ensures |r| == n
  {
    seq(n, _ => Outbox.Publish(me))
  }

  /** The steps of an undisturbed drain that claimed `n` rows. */
  function FullDrain(me: nat, limit: int, n: nat): (r: seq<Action>)
    ensures |r| == n + 3
  {
    Produced([Outbox.Claim(me, limit)] + Publishes(me, n) + [Outbox.Stamp(me), Outbox.Commit(me)])
  }

  /** What a drain that claimed `n` rows may have done when it returns `count`, or raises: at the
      connection, at the query, while publishing, or at the end. */
  ghost predicate DrainSteps(me: nat, limit: int, n: nat, steps: seq<Action>, count: Option<nat>) {
    var full := FullDrain(me, limit, n);
    if count.Some? then count.value == n && steps == if n == 0 then full[..1] else full
    else
      if n == 0 then steps == [] || steps == full[..1]
      else steps == full || exists k :: 0 < k < |full| && steps == full[..k] + [Produce(Outbox.Abort(me))]
  }

  /** What becomes of one `publish`: it may raise before or after the broker took the message. */
  datatype Publishing = Taken | TakenThenRaises | Raises

  /** What the surroundings do to one `drain`. */
  datatype DrainLuck = DrainLuck(connects: bool, selects: bool, publishing: nat -> Publishing, stamps: bool,
                                 commit: Ending)

  /** How a step of a handling ends: well, or with an error of one of the kinds `ack_after_commit` tells
      apart. AckFailed: whatever `ack` raised. */
  datatype Fault = Fine | Retryable | Permanent | NotDatabase | CommitUnknown | AckFailed

  /** What the surroundings do to one handling. `blocked`: how the claim ends if another transaction keeps
      holding the row. `refused`: the error of a COMMIT that is refused. */
  datatype Luck = Luck(claim: Fault, blocked: Fault, work: Fault, commit: Ending, refused: Fault, acks: bool)

  /** Errors before the commit, as a database or the work raises them. */
  predicate Early(f: Fault) {
    f == Retryable || f == Permanent || f == NotDatabase || f == CommitUnknown
  }

  predicate Possible(luck: Luck) {
    && (luck.claim == Fine || Early(luck.claim)) && Early(luck.blocked) && (luck.work == Fine || Early(luck.work))
    && (luck.refused == Retryable || luck.refused == Permanent)
  }

  /** The first thing that goes wrong. `waited`: the claim found the row held by another transaction;
      `first`: it inserted the row. */
  function FaultOf(luck: Luck, waited: bool, first: bool): Fault {
    if luck.claim != Fine then luck.claim
    else if waited then luck.blocked
    else if first && luck.work != Fine then luck.work
    else match luck.commit
         case Refused => luck.refused
         case Lost(_) => CommitUnknown
         case Confirmed => if luck.acks then Fine else AckFailed
  }

  /** Retried, DeadLettered: that callback was called with the error. */
  datatype Outcome = Acked | Retried | DeadLettered | Raised

  /** What handling one delivery has done when this went wrong. Nothing was committed, unless the commit
      was lost or only the ack failed. */
  ghost predicate HandlingSteps(me: nat, key: Inbox.Key, first: bool, steps: seq<Action>, fault: Fault) {
    var full := Consumed(Inbox.Handling(me, key, first));
    match fault
    case Fine => steps == full
    case AckFailed => steps == full[..|full| - 1] + [Consume(Inbox.Abort(me))]
    case CommitUnknown =>
      || steps == full[..|full| - 2] + [Consume(Inbox.Commit(me, false))]
      || exists k :: 0 < k < |full| - 1 && steps == full[..k] + [Consume(Inbox.Abort(me))]
    case _ =>
      exists k :: 0 < k < |full| - 1 && steps == full[..k] + [Consume(Inbox.Abort(me))]
  }

  /** What the caller sees of a fault. */
  function Answer(fault: Fault, hasRetry: bool, hasDeadLetter: bool): Outcome {
    match fault
    case Fine => Acked
    case Retryable => if hasRetry then Retried else Raised
    case Permanent => if hasDeadLetter then DeadLettered else Raised
    case _ => Raised
  }

  /** At some point of the log the claim of `me` would have had to wait. */
  ghost predicate HadToWait(me: nat, before: seq<Action>, log: seq<Action>) {
    exists n :: |before| <= n <= |log| && Waits(me, log[..n])
  }

  ghost predicate Waits(me: nat, log: seq<Action>) {
    && Exec(INITIAL, log).Some?
    && var s := Exec(INITIAL, log).value;
       && me in s.inbox.workers && s.inbox.workers[me].phase == Inbox.Begun
       && exists w :: w != me && w in s.inbox.workers && Inbox.Holds(s.inbox.workers[w], s.inbox.workers[me].key)
  }

  class World {
    var s: State
    ghost var log: seq<Action>

    ghost predicate Valid()
      reads this
    {
      Exec(INITIAL, log) == Some(s)
    }

    constructor ()
      ensures Valid() && log == []
    {
      s, log := INITIAL, [];
    }

    method Do(a: Action)
      requires Valid() && Next(s, a).Some?
      modifies this
      ensures Valid() && s == Next(old(s), a).value && log == old(log) + [a]
    {
      ExecConcat(INITIAL, log, [a]);
      s := Next(s, a).value;
      log := log + [a];
    }

    /** Everyone but `me` may take any number of steps. */
    method Others(me: Actor)
      requires Valid()
      modifies this
      ensures Valid() && old(log) <= log
      ensures By(log, me) == By(old(log), me) && SameFor(me, old(s), s)
    {
      var steps: nat := *;
      while steps > 0
        invariant Valid() && old(log) <= log
        invariant By(log, me) == By(old(log), me) && SameFor(me, old(s), s)
      {
        var a: Action := *;
        if !IsBy(a, me) && Next(s, a).Some? {
          ghost var before := log;
          OtherStepKeeps(s, a, me);
          Do(a);
          assert log[..|log| - 1] == before;
        }
        steps := steps - 1;
      }
    }

    /** A step of `me` itself. */
    method Act(me: Actor, a: Action)
      requires Valid() && IsBy(a, me) && Next(s, a).Some?
      modifies this
      ensures Valid() && old(log) <= log
      ensures s == Next(old(s), a).value && By(log, me) == By(old(log), me) + [a]
    {
      ghost var before := log;
      Do(a);
      assert log[..|log| - 1] == before;
    }

    // -- outbox --

    /** The id is returned before the transaction ends; the row shows only once it commits. */
    method Enqueue(tx: nat, topic: string, payload: string) returns (id: nat)
      requires Valid() && tx !in s.outbox.outcome
      modifies this
      ensures Valid() && id == |old(s).outbox.enqueued| && id !in s.outbox.rows
      ensures s.outbox == old(s).outbox.(enqueued := old(s).outbox.enqueued
                                                     + [Outbox.Enqueued(tx, Outbox.Event(topic, payload))])
      ensures s.inbox == old(s).inbox
    {
      RunKeepsInv(INITIAL, log);
      assert Outbox.RowsMatch(s.outbox);
      id := |s.outbox.enqueued|;
      Do(Produce(Outbox.Enqueue(tx, Outbox.Event(topic, payload))));
    }

    ghost predicate AllSent(ms: seq<Outbox.Message>)
      reads this
    {
      forall i :: 0 <= i < |ms| ==>
        ms[i] in s.outbox.published && ms[i].id in s.outbox.rows && s.outbox.rows[ms[i].id].sent
    }

    /** After the steps in `own`, relay `me` took those of a drain that failed. */
    ghost predicate DrainFailed(me: nat, limit: int, n: nat, own: seq<Action>)
      reads this
    {
      exists steps :: By(log, Relay(me)) == own + steps && DrainSteps(me, limit, n, steps, None)
    }

    /** None: `drain` raised. It returns exactly when nothing goes wrong, and then its rows are published
        and marked sent. */
    method Drain(me: nat, limit: int, luck: DrainLuck) returns (count: Option<nat>, ghost ms: seq<Outbox.Message>)
      requires Valid() && me !in s.outbox.relays
      modifies this
      ensures Valid() && me !in s.outbox.relays && old(log) <= log
      ensures Outbox.Sorted(ms) && |ms| <= if limit < 0 then 0 else limit
      ensures exists steps ::
                By(log, Relay(me)) == By(old(log), Relay(me)) + steps && DrainSteps(me, limit, |ms|, steps, count)
      ensures count.Some? ==>
                forall m :: m in ms ==>
                  m in s.outbox.published && m.id in s.outbox.rows && s.outbox.rows[m.id].sent
      ensures count.Some? <==>
                && luck.connects && luck.selects && limit >= 0
                && (forall i :: 0 <= i < |ms| ==> luck.publishing(i) == Taken)
                && (ms != [] ==> luck.stamps) && luck.commit == Confirmed
    {
      ghost var own := By(log, Relay(me));
      if !luck.connects || !luck.selects {
        ms := [];
        assert own == own + [] && DrainSteps(me, limit, 0, [], None);
        return None, ms;
      }
      var rows := ClaimRows(me, limit);
      ms := rows;
      if rows == [] {
        count := if limit < 0 || luck.commit != Confirmed then None else Some(0);
        assert DrainSteps(me, limit, 0, FullDrain(me, limit, 0)[..1], count);
        return;
      }
      var ok := PublishRows(me, rows, limit, luck.publishing, own);
      if ok {
        ok := Finish(me, rows, limit, luck.stamps, luck.commit, own);
      }
      count := if ok then Some(|rows|) else None;
    }

    /** SKIP LOCKED: rows that other relays hold are passed over, not waited for. */
    method ClaimRows(me: nat, limit: int) returns (rows: seq<Outbox.Message>)
      requires Valid() && me !in s.outbox.relays
      modifies this
      ensures Valid() && old(log) <= log
      ensures Outbox.Sorted(rows) && |rows| <= if limit < 0 then 0 else limit
      ensures (me in s.outbox.relays) == (rows != [])
      ensures rows != [] ==> s.outbox.relays[me] == Outbox.Relay(rows, 0, false)
      ensures By(log, Relay(me)) == By(old(log), Relay(me)) + FullDrain(me, limit, |rows|)[..1]
    {
      Others(Relay(me));
      RunKeepsInv(INITIAL, log);
      Outbox.ClaimTakes(s.outbox, limit);
      rows := Outbox.ClaimFrom(s.outbox, 0, limit);
      Act(Relay(me), Produce(Outbox.Claim(me, limit)));
      assert FullDrain(me, limit, |rows|)[..1] == [Produce(Outbox.Claim(me, limit))];
    }

    /** The loop over `publish`, which may raise before or after the broker took the message. */
    method PublishRows(me: nat, rows: seq<Outbox.Message>, limit: int, publishing: nat -> Publishing,
                       ghost own: seq<Action>) returns (ok: bool)
      requires Valid() && me in s.outbox.relays && s.outbox.relays[me] == Outbox.Relay(rows, 0, false)
      requires rows != [] && By(log, Relay(me)) == own + FullDrain(me, limit, |rows|)[..1]
      modifies this
      ensures Valid() && old(log) <= log
      ensures ok ==>
                && me in s.outbox.relays && s.outbox.relays[me] == Outbox.Relay(rows, |rows|, false)
                && By(log, Relay(me)) == own + FullDrain(me, limit, |rows|)[..1 + |rows|]
      ensures !ok ==> me !in s.outbox.relays && DrainFailed(me, limit, |rows|, own)
      ensures ok <==> forall i :: 0 <= i < |rows| ==> publishing(i) == Taken
    {
      ghost var full := FullDrain(me, limit, |rows|);
      var i := 0;
      while i < |rows|
        invariant 0 <= i <= |rows| && Valid() && old(log) <= log
        invariant me in s.outbox.relays && s.outbox.relays[me] == Outbox.Relay(rows, i, false)
        invariant By(log, Relay(me)) == own + full[..1 + i]
        invariant forall j :: 0 <= j < i ==> publishing(j) == Taken
      {
        PublishOne(me, rows, i, limit, publishing(i), own);
        if publishing(i) != Taken {
          RollBack(me, limit, |rows|, own, if publishing(i) == Raises then 1 + i else 2 + i);
          return false;
        }
        i := i + 1;
      }
      ok := true;
    }

    method PublishOne(me: nat, rows: seq<Outbox.Message>, i: nat, ghost limit: int, result: Publishing,
                      ghost own: seq<Action>)
      requires Valid() && me in s.outbox.relays && s.outbox.relays[me] == Outbox.Relay(rows, i, false)
      requires i < |rows| && By(log, Relay(me)) == own + FullDrain(me, limit, |rows|)[..1 + i]
      modifies this
      ensures Valid() && old(log) <= log
      ensures var done := if result == Raises then i else i + 1;
              && me in s.outbox.relays && s.outbox.relays[me] == Outbox.Relay(rows, done, false)
              && By(log, Relay(me)) == own + FullDrain(me, limit, |rows|)[..1 + done]
    {
      ghost var full := FullDrain(me, limit, |rows|);
      Others(Relay(me));
      if result != Raises {
        Act(Relay(me), Produce(Outbox.Publish(me)));
        assert own + full[..2 + i] == own + full[..1 + i] + [Produce(Outbox.Publish(me))];
      }
    }

    /** The update of `sent_at` and the commit, whose confirmation may get lost. */
    method Finish(me: nat, rows: seq<Outbox.Message>, limit: int, stamps: bool, commit: Ending,
                  ghost own: seq<Action>) returns (ok: bool)
      requires Valid() && me in s.outbox.relays && s.outbox.relays[me] == Outbox.Relay(rows, |rows|, false)
      requires rows != [] && By(log, Relay(me)) == own + FullDrain(me, limit, |rows|)[..1 + |rows|]
      modifies this
      ensures Valid() && me !in s.outbox.relays && old(log) <= log
      ensures ok ==> AllSent(rows) && By(log, Relay(me)) == own + FullDrain(me, limit, |rows|)
      ensures !ok ==> DrainFailed(me, limit, |rows|, own)
      ensures ok <==> stamps && commit == Confirmed
    {
      ghost var full, n := FullDrain(me, limit, |rows|), |rows|;
      Others(Relay(me));
      if !stamps {
        RollBack(me, limit, n, own, 1 + n);
        return false;
      }
      Act(Relay(me), Produce(Outbox.Stamp(me)));
      assert own + full[..2 + n] == own + full[..1 + n] + [Produce(Outbox.Stamp(me))];
      ok := CommitDrain(me, rows, limit, commit, own);
    }

    method CommitDrain(me: nat, rows: seq<Outbox.Message>, limit: int, commit: Ending, ghost own: seq<Action>)
        returns (ok: bool)
      requires Valid() && me in s.outbox.relays && s.outbox.relays[me] == Outbox.Relay(rows, |rows|, true)
      requires rows != [] && By(log, Relay(me)) == own + FullDrain(me, limit, |rows|)[..2 + |rows|]
      modifies this
      ensures Valid() && me !in s.outbox.relays && old(log) <= log
      ensures ok ==> AllSent(rows) && By(log, Relay(me)) == own + FullDrain(me, limit, |rows|)
      ensures !ok ==> DrainFailed(me, limit, |rows|, own)
      ensures ok <==> commit == Confirmed
    {
      ghost var full, n := FullDrain(me, limit, |rows|), |rows|;
      Others(Relay(me));
      if commit == Refused || commit == Lost(false) {
        RollBack(me, limit, n, own, 2 + n);
        return false;
      }
      RunKeepsInv(INITIAL, log);
      Outbox.CommitMarks(s.outbox, me);
      Act(Relay(me), Produce(Outbox.Commit(me)));
      assert own + full == own + full[..2 + n] + [Produce(Outbox.Commit(me))];
      ok := commit == Confirmed;
      assert DrainSteps(me, limit, n, full, None);
    }

    /** Leaving the transaction by an exception rolls it back and frees the rows. */
    method RollBack(me: nat, limit: int, ghost n: nat, ghost own: seq<Action>, ghost k: nat)
      requires Valid() && me in s.outbox.relays && n > 0 && 0 < k < |FullDrain(me, limit, n)|
      requires By(log, Relay(me)) == own + FullDrain(me, limit, n)[..k]
      modifies this
      ensures Valid() && me !in s.outbox.relays && old(log) <= log && DrainFailed(me, limit, n, own)
    {
      Act(Relay(me), Produce(Outbox.Abort(me)));
      ghost var steps := FullDrain(me, limit, n)[..k] + [Produce(Outbox.Abort(me))];
      assert By(log, Relay(me)) == own + steps && DrainSteps(me, limit, n, steps, None);
    }

    // -- inbox --

    /** After the steps in `own`, consumer `me` took those of a handling with this fault. */
    ghost predicate Handled(me: nat, key: Inbox.Key, own: seq<Action>, first: bool, fault: Fault)
      reads this
    {
      exists steps :: By(log, Consumer(me)) == own + steps && HandlingSteps(me, key, first, steps, fault)
    }

    /** One delivery: claim, work if first, commit, and only then acknowledge. What goes wrong first
        decides what was done and how it ends: a retryable error goes to `retry` and a permanent one to
        `dead_letter`, if there is such a callback; every other error is raised. */
    method AckAfterCommit(me: nat, key: Inbox.Key, hasRetry: bool, hasDeadLetter: bool, luck: Luck)
        returns (r: Outcome, ghost fault: Fault, ghost waited: bool, ghost first: bool)
      requires Valid() && me !in s.inbox.workers && Outbox.Holds(s.outbox.published, key.message) && Possible(luck)
      modifies this
      ensures Valid() && me !in s.inbox.workers && old(log) <= log
      ensures fault == FaultOf(luck, waited, first)
      ensures luck.claim != Fine ==> fault == luck.claim
      ensures luck.claim == Fine && waited ==> fault == luck.blocked
      ensures luck.claim == Fine && !waited && first && luck.work != Fine ==> fault == luck.work
      ensures luck.claim == Fine && !waited && (first ==> luck.work == Fine) ==>
                && (luck.commit == Refused ==> fault == luck.refused)
                && (luck.commit.Lost? ==> fault == CommitUnknown)
                && (luck.commit == Confirmed ==> fault == if luck.acks then Fine else AckFailed)
      ensures exists steps ::
                && By(log, Consumer(me)) == By(old(log), Consumer(me)) + steps
                && HandlingSteps(me, key, first, steps, fault)
      ensures waited ==> HadToWait(me, old(log), log)
      ensures r == Acked <==> fault == Fine
      ensures r == Retried <==> fault == Retryable && hasRetry
      ensures r == DeadLettered <==> fault == Permanent && hasDeadLetter
      ensures r == Acked ==> key in s.inbox.acked && key in s.inbox.inbox && s.inbox.effects[key] == 1
    {
      ghost var own := By(log, Consumer(me));
      Act(Consumer(me), Consume(Inbox.Deliver(me, key)));
      var claimed;
      claimed, waited := TryClaim(me, key, luck, own);
      if !claimed {
        first := true;
        r, fault := GiveUpClaim(me, key, hasRetry, hasDeadLetter, luck, own, waited);
        return;
      }
      var inserted := s.inbox.workers[me].phase.first;
      first := inserted;
      r, fault := WorkAndCommit(me, key, inserted, hasRetry, hasDeadLetter, luck, own);
    }

    /** The claim failed, or the row was held for too long. */
    method GiveUpClaim(me: nat, key: Inbox.Key, hasRetry: bool, hasDeadLetter: bool, luck: Luck, ghost own: seq<Action>,
                       ghost waited: bool) returns (r: Outcome, ghost fault: Fault)
      requires Valid() && me in s.inbox.workers && s.inbox.workers[me].key == key && Possible(luck)
      requires By(log, Consumer(me)) == own + Consumed(Inbox.Handling(me, key, true))[..1]
      requires waited == (luck.claim == Fine)
      modifies this
      ensures Valid() && me !in s.inbox.workers && old(log) <= log
      ensures fault == (if luck.claim != Fine then luck.claim else luck.blocked) && fault == FaultOf(luck, waited, true)
      ensures Handled(me, key, own, true, fault) && r == Answer(fault, hasRetry, hasDeadLetter) && r != Acked
      ensures forall before :: HadToWait(me, before, old(log)) ==> HadToWait(me, before, log)
    {
      ghost var seen := log;
      var error := if luck.claim != Fine then luck.claim else luck.blocked;
      fault := error;
      r := Fail(me, key, hasRetry, hasDeadLetter, error, own, true, 1);
      forall before | HadToWait(me, before, seen) ensures HadToWait(me, before, log) {
        WaitsLater(me, before, seen, log);
      }
    }

    method TryClaim(me: nat, key: Inbox.Key, luck: Luck, ghost own: seq<Action>)
        returns (claimed: bool, ghost waited: bool)
      requires Valid() && me in s.inbox.workers && s.inbox.workers[me] == Inbox.Worker(key, Inbox.Begun)
      requires By(log, Consumer(me)) == own + [Consume(Inbox.Deliver(me, key))]
      modifies this
      ensures Valid() && old(log) <= log && me in s.inbox.workers && s.inbox.workers[me].key == key
      ensures waited == (luck.claim == Fine && !claimed) && (waited ==> HadToWait(me, old(log), log))
      ensures !claimed ==> By(log, Consumer(me)) == own + Consumed(Inbox.Handling(me, key, true))[..1]
      ensures claimed ==>
                && luck.claim == Fine && s.inbox.workers[me].phase.Claimed?
                && var first := s.inbox.workers[me].phase.first;
                   By(log, Consumer(me)) == own + Consumed(Inbox.Handling(me, key, first))[..2]
    {
      Others(Consumer(me));
      claimed := luck.claim == Fine && Next(s, Consume(Inbox.Claim(me))).Some?;
      waited := luck.claim == Fine && !claimed;
      if waited {
        assert log[..|log|] == log && Waits(me, log);
      }
      if claimed {
        Act(Consumer(me), Consume(Inbox.Claim(me)));
      } else {
        assert [Consume(Inbox.Deliver(me, key))] == Consumed(Inbox.Handling(me, key, true))[..1];
      }
    }

    method WorkAndCommit(me: nat, key: Inbox.Key, first: bool, hasRetry: bool, hasDeadLetter: bool, luck: Luck,
                         ghost own: seq<Action>) returns (r: Outcome, ghost fault: Fault)
      requires Valid() && me in s.inbox.workers && s.inbox.workers[me] == Inbox.Worker(key, Inbox.Claimed(first))
      requires By(log, Consumer(me)) == own + Consumed(Inbox.Handling(me, key, first))[..2]
      requires Possible(luck) && luck.claim == Fine
      modifies this
      ensures Valid() && me !in s.inbox.workers && old(log) <= log
      ensures fault == FaultOf(luck, false, first) && Handled(me, key, own, first, fault)
      ensures r == Answer(fault, hasRetry, hasDeadLetter)
      ensures r == Acked ==> key in s.inbox.acked && key in s.inbox.inbox && s.inbox.effects[key] == 1
    {
      ghost var full := Consumed(Inbox.Handling(me, key, first));
      fault := FaultOf(luck, false, first);
      Others(Consumer(me));
      if first && luck.work != Fine {
        r := Fail(me, key, hasRetry, hasDeadLetter, luck.work, own, first, 2);
        return;
      }
      if first {
        Act(Consumer(me), Consume(Inbox.Work(me)));
        assert own + full[..2] + [Consume(Inbox.Work(me))] == own + full[..3];
      }
      r := CommitAndAck(me, key, first, hasRetry, hasDeadLetter, luck, own);
    }

    method CommitAndAck(me: nat, key: Inbox.Key, first: bool, hasRetry: bool, hasDeadLetter: bool, luck: Luck,
                        ghost own: seq<Action>) returns (r: Outcome)
      requires Valid() && me in s.inbox.workers && Possible(luck) && luck.claim == Fine && (first ==> luck.work == Fine)
      requires s.inbox.workers[me] == Inbox.Worker(key, if first then Inbox.Worked else Inbox.Claimed(false))
      requires var full := Consumed(Inbox.Handling(me, key, first));
               By(log, Consumer(me)) == own + full[..|full| - 2]
      modifies this
      ensures Valid() && me !in s.inbox.workers && old(log) <= log
      ensures Handled(me, key, own, first, FaultOf(luck, false, first))
      ensures r == Answer(FaultOf(luck, false, first), hasRetry, hasDeadLetter)
      ensures r == Acked ==> key in s.inbox.acked && key in s.inbox.inbox && s.inbox.effects[key] == 1
    {
      ghost var full := Consumed(Inbox.Handling(me, key, first));
      Others(Consumer(me));
      match luck.commit {
        case Refused =>
          r := Fail(me, key, hasRetry, hasDeadLetter, luck.refused, own, first, |full| - 2);
        case Lost(applied) =>
          LoseCommit(me, key, first, own, applied);
          r := Raised;
        case Confirmed =>
          Act(Consumer(me), Consume(Inbox.Commit(me, true)));
          assert own + full[..|full| - 2] + [full[|full| - 2]] == own + full[..|full| - 1];
          r := Acknowledge(me, key, first, luck.acks, own);
      }
    }

    /** The ack, which may fail on its own after the commit. */
    method Acknowledge(me: nat, key: Inbox.Key, first: bool, acks: bool, ghost own: seq<Action>) returns (r: Outcome)
      requires Valid() && me in s.inbox.workers && s.inbox.workers[me] == Inbox.Worker(key, Inbox.Committed)
      requires var full := Consumed(Inbox.Handling(me, key, first));
               By(log, Consumer(me)) == own + full[..|full| - 1]
      modifies this
      ensures Valid() && me !in s.inbox.workers && old(log) <= log
      ensures Handled(me, key, own, first, if acks then Fine else AckFailed) && r == if acks then Acked else Raised
      ensures r == Acked ==> key in s.inbox.acked && key in s.inbox.inbox && s.inbox.effects[key] == 1
    {
      ghost var full := Consumed(Inbox.Handling(me, key, first));
      Others(Consumer(me));
      if acks {
        Act(Consumer(me), Consume(Inbox.Ack(me)));
        assert own + full[..|full| - 1] + [full[|full| - 1]] == own + full;
        assert HandlingSteps(me, key, first, full, Fine);
        RunKeepsInv(INITIAL, log);
        r := Acked;
      } else {
        Act(Consumer(me), Consume(Inbox.Abort(me)));
        assert HandlingSteps(me, key, first, full[..|full| - 1] + [Consume(Inbox.Abort(me))], AckFailed);
        r := Raised;
      }
    }

    /** A lost connection during COMMIT: it may or may not have taken effect. Never acknowledged. */
    method LoseCommit(me: nat, key: Inbox.Key, first: bool, ghost own: seq<Action>, applied: bool)
      requires Valid() && me in s.inbox.workers
      requires s.inbox.workers[me] == Inbox.Worker(key, if first then Inbox.Worked else Inbox.Claimed(false))
      requires var full := Consumed(Inbox.Handling(me, key, first));
               By(log, Consumer(me)) == own + full[..|full| - 2]
      modifies this
      ensures Valid() && me !in s.inbox.workers && old(log) <= log && Handled(me, key, own, first, CommitUnknown)
    {
      ghost var full := Consumed(Inbox.Handling(me, key, first));
      ghost var last := if applied then Inbox.Commit(me, false) else Inbox.Abort(me);
      if applied {
        Act(Consumer(me), Consume(Inbox.Commit(me, false)));
      } else {
        Act(Consumer(me), Consume(Inbox.Abort(me)));
      }
      assert HandlingSteps(me, key, first, full[..|full| - 2] + [Consume(last)], CommitUnknown);
    }

    /** An error before the commit took effect: roll back, then call back or raise. */
    method Fail(me: nat, key: Inbox.Key, hasRetry: bool, hasDeadLetter: bool, error: Fault, ghost own: seq<Action>,
                ghost first: bool, ghost k: nat) returns (r: Outcome)
      requires Valid() && me in s.inbox.workers && s.inbox.workers[me].key == key && Early(error)
      requires 0 < k < |Inbox.Handling(me, key, first)| - 1
      requires By(log, Consumer(me)) == own + Consumed(Inbox.Handling(me, key, first))[..k]
      modifies this
      ensures Valid() && me !in s.inbox.workers && old(log) <= log && Handled(me, key, own, first, error)
      ensures r == Answer(error, hasRetry, hasDeadLetter)
    {
      Act(Consumer(me), Consume(Inbox.Abort(me)));
      var databaseError, retryable := error != NotDatabase, error == Retryable;
      r := if error == CommitUnknown then Raised
           else if databaseError && retryable && hasRetry then Retried
           else if databaseError && !retryable && hasDeadLetter then DeadLettered
           else Raised;
      ghost var steps := Consumed(Inbox.Handling(me, key, first))[..k] + [Consume(Inbox.Abort(me))];
      assert HandlingSteps(me, key, first, steps, error);
    }
  }

  lemma WaitsLater(me: nat, before: seq<Action>, log: seq<Action>, longer: seq<Action>)
    requires HadToWait(me, before, log) && log <= longer
    ensures HadToWait(me, before, longer)
  {
    var n :| |before| <= n <= |log| && Waits(me, log[..n]);
    assert longer[..n] == log[..n];
  }

  lemma OtherStepKeeps(s: State, a: Action, me: Actor)
    requires !IsBy(a, me) && Next(s, a).Some?
    ensures SameFor(me, s, Next(s, a).value)
  {}
}
