/** `_async/transaction.py`: nested savepoint blocks inside a transaction, and the life of the
    transaction manager that owns the connection. */
module Transaction {
  import opened Wrappers

  // -- programs and what they mean --

  datatype Exit = Normal | Error | Cancelled

  /** A transaction body. An exception leaves every block up to a handler; handlers stand right
      outside a savepoint block and do not stop a cancellation. */
  datatype Code<W> =
    | Done
    | Write(value: W, next: Code<W>)
    | Savepoint(body: Code<W>, handler: bool, next: Code<W>)
    | Raise(cancelled: bool)

  datatype Effect<W> = Effect(kept: seq<W>, exit: Exit)

  predicate Stops(handler: bool, exit: Exit) {
    handler && exit == Error
  }

  /** What is left of the writes when the code is through, and how it ends. */
  function Eval<W>(code: Code<W>): Effect<W> {
    match code
    case Done => Effect([], Normal)
    case Write(v, next) => Effect([v] + Eval(next).kept, Eval(next).exit)
    case Raise(cancelled) => Effect([], if cancelled then Cancelled else Error)
    case Savepoint(body, handler, next) =>
      var e := Eval(body);
      if e.exit == Normal then Effect(e.kept + Eval(next).kept, Eval(next).exit)
      else if Stops(handler, e.exit) then Eval(next)
      else Effect([], e.exit)
  }

  /** The code ends by a cancellation, which no handler stops. */
  predicate Cancels<W>(code: Code<W>) {
    match code
    case Done => false
    case Write(_, next) => Cancels(next)
    case Raise(cancelled) => cancelled
    case Savepoint(body, handler, next) => Cancels(body) || ((Completes(body) || handler) && Cancels(next))
  }

  /** Nothing is raised on the way, or a handler stops it. */
  predicate Completes<W>(code: Code<W>) {
    match code
    case Done => true
    case Write(_, next) => Completes(next)
    case Raise(_) => false
    case Savepoint(body, handler, next) => (Completes(body) || (handler && !Cancels(body))) && Completes(next)
  }

  /** How code ends: normally exactly when it completes, and cancelled exactly when it cancels. */
  lemma {:induction false} ExitMeaning<W>(code: Code<W>)
    ensures Eval(code).exit == Normal <==> Completes(code)
    ensures Eval(code).exit == Cancelled <==> Cancels(code)
  {
    match code
    case Done =>
    case Raise(_) =>
    case Write(_, next) => ExitMeaning(next);
    case Savepoint(body, handler, next) =>
      ExitMeaning(body);
      ExitMeaning(next);
  }

  // -- the statements it sends --

  datatype Statement<W> = Insert(value: W) | Open | Release | RollbackTo

  function Statements<W>(code: Code<W>): seq<Statement<W>> {
    match code
    case Done => []
    case Write(v, next) => [Insert(v)] + Statements(next)
    case Raise(_) => []
    case Savepoint(body, handler, next) =>
      var exit := Eval(body).exit;
      [Open] + (Statements(body)
                + ([Closing(exit)]
                   + if exit == Normal || Stops(handler, exit) then Statements(next) else []))
  }

  /** A write followed by `rest`, with `depth` blocks opened since and still open: whether a block
      around it gets rolled back. */
  predicate Doomed<W>(rest: seq<Statement<W>>, depth: nat) {
    if rest == [] then false
    else match rest[0]
         case Insert(_) => Doomed(rest[1..], depth)
         case Open => Doomed(rest[1..], depth + 1)
         case Release => Doomed(rest[1..], if depth == 0 then 0 else depth - 1)
         case RollbackTo => depth == 0 || Doomed(rest[1..], depth - 1)
  }

  /** The writes that are not inside a block that was rolled back, in order. */
  function Survivors<W>(statements: seq<Statement<W>>): seq<W> {
    if statements == [] then []
    else (if statements[0].Insert? && !Doomed(statements[1..], 0) then [statements[0].value] else [])
         + Survivors(statements[1..])
  }

  /** The server's stack of subtransactions, the whole transaction first, each with its own writes. */
  function Serve<W>(stack: seq<seq<W>>, s: Statement<W>): (r: Option<seq<seq<W>>>)
    requires stack != []
    ensures r.Some? ==> r.value != []
  {
    var n := |stack| - 1;
    match s
    case Insert(v) => Some(stack[n := stack[n] + [v]])
    case Open => Some(stack + [[]])
    case Release => if n == 0 then None else Some(stack[..n - 1] + [stack[n - 1] + stack[n]])
    case RollbackTo => if n == 0 then None else Some(stack[..n])
  }

  function ServeAll<W>(stack: seq<seq<W>>, statements: seq<Statement<W>>): (r: Option<seq<seq<W>>>)
    requires stack != []
    ensures r.Some? ==> r.value != []
    decreases |statements|
  {
    if statements == [] then Some(stack)
    else match Serve(stack, statements[0])
         case Some(next) => ServeAll(next, statements[1..])
         case None => None
  }

  lemma {:induction false} ServeConcat<W>(stack: seq<seq<W>>, a: seq<Statement<W>>, b: seq<Statement<W>>)
    requires stack != []
    ensures ServeAll(stack, a + b) == match ServeAll(stack, a)
                                      case Some(next) => ServeAll(next, b)
                                      case None => None
    decreases |a|
  {
    if a == [] {
      assert a + b == b;
    } else {
      assert (a + b)[0] == a[0] && (a + b)[1..] == a[1..] + b;
      if Serve(stack, a[0]).Some? {
        ServeConcat(Serve(stack, a[0]).value, a[1..], b);
      }
    }
  }

  lemma ServeOne<W>(stack: seq<seq<W>>, s: Statement<W>, rest: seq<Statement<W>>)
    requires stack != [] && Serve(stack, s).Some?
    ensures ServeAll(stack, [s] + rest) == ServeAll(Serve(stack, s).value, rest)
  {
    assert ([s] + rest)[1..] == rest;
  }

  lemma BlockEnds<W>(outer: seq<seq<W>>, top: seq<W>, inner: seq<W>)
    ensures Serve(outer + [top] + [inner], Release) == Some(outer + [top + inner])
    ensures Serve(outer + [top] + [inner], RollbackTo) == Some(outer + [top])
  {
    var stack := outer + [top] + [inner];
    assert stack[..|stack| - 2] == outer && stack[..|stack| - 1] == outer + [top];
  }

  function Closing<W>(exit: Exit): Statement<W> {
    if exit == Normal then Release else RollbackTo
  }

  /** A block up to its end. */
  lemma ServesBlock<W>(outer: seq<seq<W>>, top: seq<W>, body: Code<W>, after: seq<Statement<W>>)
    requires ServeAll(outer + [top] + [[]], Statements(body)) == Some(outer + [top] + [Eval(body).kept])
    ensures ServeAll(outer + [top], [Open] + (Statements(body) + ([Closing(Eval(body).exit)] + after)))
         == ServeAll(outer + [if Eval(body).exit == Normal then top + Eval(body).kept else top], after)
  {
    var stack, close: Statement<W> := outer + [top], Closing(Eval(body).exit);
    ServeOne(stack, Open, Statements(body) + ([close] + after));
    ServeConcat(stack + [[]], Statements(body), [close] + after);
    BlockEnds(outer, top, Eval(body).kept);
    ServeOne(stack + [Eval(body).kept], close, after);
  }

  lemma AppendNothing<W>(a: seq<W>)
    ensures a + [] == a && [] + a == a
  {}

  lemma BlockThen<W>(before: seq<W>, open: W, body: seq<W>, close: W, after: seq<W>)
    ensures before + ([open] + (body + [close])) + after
            == before + ([open] + (body + ([close] + after)))
  {}

  lemma AppendTwice<W>(a: seq<W>, b: seq<W>, c: seq<W>)
    ensures a + b + c == a + (b + c)
  {}

  /** The code's statements add its surviving writes to the innermost open block. */
  lemma {:induction false} ServesCode<W>(outer: seq<seq<W>>, top: seq<W>, code: Code<W>)
    ensures ServeAll(outer + [top], Statements(code)) == Some(outer + [top + Eval(code).kept])
    decreases code
  {
    match code
    case Done =>
      AppendNothing(top);
    case Raise(_) =>
      AppendNothing(top);
    case Write(v, next) =>
      assert Serve(outer + [top], Insert(v)).value == outer + [top + [v]];
      ServeOne(outer + [top], Insert(v), Statements(next));
      ServesCode(outer, top + [v], next);
      AppendTwice(top, [v], Eval(next).kept);
    case Savepoint(body, handler, next) =>
      var e := Eval(body);
      ServesCode(outer + [top], [], body);
      AppendNothing(e.kept);
      if e.exit == Normal {
        ServesBlock(outer, top, body, Statements(next));
        ServesCode(outer, top + e.kept, next);
        AppendTwice(top, e.kept, Eval(next).kept);
      } else if Stops(handler, e.exit) {
        ServesBlock(outer, top, body, Statements(next));
        ServesCode(outer, top, next);
      } else {
        ServesBlock(outer, top, body, []);
        AppendNothing(top);
      }
  }

  function Flat<W>(stack: seq<seq<W>>): seq<W> {
    if stack == [] then [] else Flat(stack[..|stack| - 1]) + stack[|stack| - 1]
  }

  /** What is left of the writes already on the stack. */
  function Left<W>(stack: seq<seq<W>>, rest: seq<Statement<W>>, depth: nat): seq<W> {
    if stack == [] then []
    else Left(stack[..|stack| - 1], rest, depth + 1) + if Doomed(rest, depth) then [] else stack[|stack| - 1]
  }

  lemma {:induction false} NothingDoomed<W>(stack: seq<seq<W>>, depth: nat)
    ensures Left(stack, [], depth) == Flat(stack)
  {
    if stack != [] {
      NothingDoomed(stack[..|stack| - 1], depth + 1);
    }
  }

  function DepthAfter<W>(s: Statement<W>, depth: nat): nat {
    match s
    case Insert(_) => depth
    case Open => depth + 1
    case _ => if depth == 0 then 0 else depth - 1
  }

  lemma {:induction false} LeftAfter<W>(stack: seq<seq<W>>, statements: seq<Statement<W>>, depth: nat)
    requires statements != [] && (depth > 0 || statements[0].Insert? || statements[0].Open?)
    ensures Left(stack, statements, depth) == Left(stack, statements[1..], DepthAfter(statements[0], depth))
    decreases |stack|
  {
    if stack != [] {
      LeftAfter(stack[..|stack| - 1], statements, depth + 1);
    }
  }

  lemma LeftSnoc<W>(stack: seq<seq<W>>, top: seq<W>, rest: seq<Statement<W>>, depth: nat)
    ensures Left(stack + [top], rest, depth)
         == Left(stack, rest, depth + 1) + if Doomed(rest, depth) then [] else top
  {
    assert (stack + [top])[..|stack|] == stack;
  }

  lemma InsertKeeps<W>(stack: seq<seq<W>>, statements: seq<Statement<W>>)
    requires stack != [] && statements != [] && statements[0].Insert? && Serve(stack, statements[0]).Some?
    ensures Left(stack, statements, 0) + Survivors(statements)
         == Left(Serve(stack, statements[0]).value, statements[1..], 0) + Survivors(statements[1..])
  {
    var rest, n := statements[1..], |stack| - 1;
    var v, lower, top := statements[0].value, stack[..n], stack[n];
    assert stack[n := top + [v]] == lower + [top + [v]];
    LeftSnoc(lower, top + [v], rest, 0);
    LeftAfter(lower, statements, 1);
    var left, after := Left(lower, rest, 1), Survivors(rest);
    if Doomed(rest, 0) {
      assert Survivors(statements) == [] + after;
      assert left + [] + ([] + after) == left + [] + after;
    } else {
      assert Survivors(statements) == [v] + after;
      Regroup(left, top, [v], after);
    }
  }

  lemma Regroup<W>(a: seq<W>, b: seq<W>, c: seq<W>, d: seq<W>)
    ensures (a + b) + (c + d) == (a + (b + c)) + d
  {}

  lemma OpenKeeps<W>(stack: seq<seq<W>>, statements: seq<Statement<W>>)
    requires stack != [] && statements != [] && statements[0].Open? && Serve(stack, statements[0]).Some?
    ensures Left(stack, statements, 0) == Left(Serve(stack, statements[0]).value, statements[1..], 0)
  {
    var rest, n := statements[1..], |stack| - 1;
    LeftSnoc(stack, [], rest, 0);
    LeftAfter(stack, statements, 0);
    assert Left(stack, rest, 1) + [] == Left(stack, rest, 1);
  }

  lemma ReleaseKeeps<W>(stack: seq<seq<W>>, statements: seq<Statement<W>>)
    requires stack != [] && statements != [] && statements[0].Release? && Serve(stack, statements[0]).Some?
    ensures Left(stack, statements, 0) == Left(Serve(stack, statements[0]).value, statements[1..], 0)
  {
    var rest, n := statements[1..], |stack| - 1;
    var deeper, under, top := stack[..n - 1], stack[n - 1], stack[n];
    assert stack[..n] == deeper + [under];
    LeftSnoc(deeper, under, statements, 1);
    LeftSnoc(deeper, under + top, rest, 0);
    LeftAfter(deeper, statements, 2);
    var left := Left(deeper, rest, 1);
    if Doomed(rest, 0) {
      assert left + [] + [] == left + [];
    } else {
      assert left + under + top == left + (under + top);
    }
  }

  lemma RollbackKeeps<W>(stack: seq<seq<W>>, statements: seq<Statement<W>>)
    requires stack != [] && statements != [] && statements[0].RollbackTo? && Serve(stack, statements[0]).Some?
    ensures Left(stack, statements, 0) == Left(Serve(stack, statements[0]).value, statements[1..], 0)
  {
    var rest, n := statements[1..], |stack| - 1;
    LeftAfter(stack[..n], statements, 1);
    assert Left(stack, statements, 0) == Left(stack[..n], statements, 1) + [];
  }

  lemma OnlyInsertsSurvive<W>(statements: seq<Statement<W>>)
    requires statements != [] && !statements[0].Insert?
    ensures Survivors(statements) == Survivors(statements[1..])
  {
    assert Survivors(statements) == [] + Survivors(statements[1..]);
  }

  /** Main result: a server that keeps subtransactions keeps exactly the writes that no rolled-back
      block encloses, for every sequence of statements it accepts. */
  lemma {:induction false} ServerKeepsSurvivors<W>(stack: seq<seq<W>>, statements: seq<Statement<W>>)
    requires stack != [] && ServeAll(stack, statements).Some?
    ensures Flat(ServeAll(stack, statements).value) == Left(stack, statements, 0) + Survivors(statements)
    decreases |statements|
  {
    if statements == [] {
      NothingDoomed(stack, 0);
    } else {
      if !statements[0].Insert? {
        OnlyInsertsSurvive(statements);
      }
      match statements[0] {
        case Insert(_) => InsertKeeps(stack, statements);
        case Open => OpenKeeps(stack, statements);
        case Release => ReleaseKeeps(stack, statements);
        case RollbackTo => RollbackKeeps(stack, statements);
      }
      ServerKeepsSurvivors(Serve(stack, statements[0]).value, statements[1..]);
    }
  }

  /** And so the tree meaning of nested blocks is that: the writes not inside a block left by an
      exception. */
  lemma TreeMeaning<W>(code: Code<W>)
    ensures Eval(code).kept == Survivors(Statements(code))
  {
    var empty: seq<seq<W>> := [[]];
    ServesCode([], [], code);
    assert [] + empty == empty;
    ServerKeepsSurvivors(empty, Statements(code));
    var end := [Eval(code).kept];
    assert [] + Eval(code).kept == Eval(code).kept && [] + end == end;
    assert Flat(end[..0]) == [] && Flat(end) == Eval(code).kept;
    assert Left(empty[..0], Statements(code), 1) == [] && Left(empty, Statements(code), 0) == [];
  }

  // -- the transaction manager --

  /** The server's committed writes, and the pool: how often a connection was checked out and back. */
  class Server<W> {
    var committed: seq<W>
    var acquired: nat
    var released: nat

    constructor ()
      ensures committed == [] && acquired == released == 0
    {
      committed, acquired, released := [], 0, 0;
    }
  }

  /** How the steps of entering end: each may raise. */
  datatype Opening = Opening(connects: bool, configures: bool, begins: bool, applies: bool)

  datatype Outcome = EnterFailed | Committed | CommitUnknown | CommitRefused | RolledBack(exit: Exit)

  class AsyncTransactionManager<W> {
    const server: Server<W>
    const lasts: nat               // how many statements the session lasts
    var conn: bool                 // a connection is checked out
    var trans: bool                // and a transaction is open on it
    var invalidated: bool
    var broken: bool               // a statement lost the connection: the session on the server is gone
    var stack: seq<seq<W>>         // its subtransactions, as the server sees them
    var sent: seq<Statement<W>>

    constructor (server: Server<W>, lasts: nat)
      ensures this.server == server && this.lasts == lasts && !conn && !trans && !invalidated && !broken && sent == []
    {
      this.server, this.lasts := server, lasts;
      conn, trans, invalidated, broken, stack, sent := false, false, false, false, [], [];
    }

    ghost predicate Active()
      reads this
    {
      conn && trans && (!broken ==> |stack| == 1)
    }

    /** Check out, configure, begin, apply settings: each step may fail. */
    method Enter(o: Opening) returns (ok: bool)
      requires !conn && !trans && !broken && sent == []
      modifies this, server
      ensures server.committed == old(server.committed) && !broken
      ensures ok <==> o.connects && o.configures && o.begins && o.applies
      ensures ok ==> Active() && stack == [[]] && sent == []
      ensures old(server.acquired) <= server.acquired <= old(server.acquired) + 1
      ensures ok ==> server.acquired == old(server.acquired) + 1 && server.released == old(server.released)
      ensures !ok ==> !conn && !trans
                      && server.acquired - old(server.acquired) == server.released - old(server.released)
    {
      ok := false;
      if o.connects {
        server.acquired, conn := server.acquired + 1, true;
        if o.configures && o.begins {
          trans, stack := true, [[]];
          ok := o.applies;
        }
      }
      if !ok {
        CleanUpOnEnterFailure();
      }
    }

    method CleanUpOnEnterFailure()
      requires trans ==> conn
      modifies this`conn, this`trans, this`stack, server`released
      ensures !conn && !trans && (old(trans) ==> stack == [])
      ensures server.released == old(server.released) + if old(conn) then 1 else 0
    {
      if trans {
        stack := [];
      }
      Release();
    }

    /** A second call finds nothing to release. */
    method Release()
      modifies this`conn, this`trans, server`released
      ensures !conn && (old(conn) ==> !trans) && (!old(conn) ==> trans == old(trans))
      ensures server.released == old(server.released) + if old(conn) then 1 else 0
    {
      if conn {
        server.released := server.released + 1;
        conn, trans := false, false;
      }
    }

    /** False: the session is gone, from this statement on or before it, and the statement raises. */
    method Send(s: Statement<W>) returns (ok: bool)
      requires !broken ==> stack != [] && Serve(stack, s).Some?
      modifies this`stack, this`sent, this`broken
      ensures ok == !broken && (broken <==> old(broken) || |old(sent)| >= lasts)
      ensures ok ==> stack == Serve(old(stack), s).value && sent == old(sent) + [s]
      ensures !ok ==> stack == old(stack) && sent == old(sent)
    {
      broken := broken || |sent| >= lasts;
      ok := !broken;
      if ok {
        stack := Serve(stack, s).value;
        sent := sent + [s];
      }
    }

    /** Leaving a block by an exception; the rollback may fail, and then its error goes on instead. */
    method LeaveByException(exit: Exit, ghost outer: seq<seq<W>>, ghost top: seq<W>, ghost inner: seq<W>)
        returns (r: Exit)
      requires exit != Normal && (!broken ==> stack == outer + [top] + [inner])
      modifies this`stack, this`sent, this`broken
      ensures broken <==> old(broken) || |old(sent)| >= lasts
      ensures broken ==> r == Error
      ensures !broken ==> r == exit && stack == outer + [top] && sent == old(sent) + [RollbackTo]
    {
      BlockEnds(outer, top, inner);
      var ok := Send(RollbackTo);
      r := if ok then exit else Error;
    }

    /** `savepoint()` around `body`: released on a normal exit, rolled back on every other. */
    method RunSavepoint(body: Code<W>, ghost outer: seq<seq<W>>, ghost top: seq<W>) returns (exit: Exit)
      requires !broken ==> stack == outer + [top]
      modifies this`stack, this`sent, this`broken
      ensures broken <==> old(broken) || |old(sent)| + |Statements(body)| + 2 > lasts
      ensures broken ==> exit == Error
      ensures !broken ==>
                && exit == Eval(body).exit
                && stack == outer + [if exit == Normal then top + Eval(body).kept else top]
                && sent == old(sent) + ([Open] + (Statements(body) + [Closing(exit)]))
      decreases body, 2
    {
      var ok := Send(Open);
      if !ok {
        return Error;
      }
      exit := Run(body, outer + [top], []);
      AppendNothing(Eval(body).kept);
      BlockEnds(outer, top, Eval(body).kept);
      if exit == Normal {
        ok := Send(Statement.Release);
        exit := if ok then Normal else Error;
      } else {
        exit := LeaveByException(exit, outer, top, Eval(body).kept);
      }
    }

    /** The body of a transaction or of a block. On a session that is gone every statement raises. */
    method Run(code: Code<W>, ghost outer: seq<seq<W>>, ghost top: seq<W>) returns (exit: Exit)
      requires !broken ==> stack == outer + [top]
      modifies this`stack, this`sent, this`broken
      ensures broken <==> old(broken) || (Statements(code) != [] && |old(sent)| + |Statements(code)| > lasts)
      ensures !broken ==>
                && exit == Eval(code).exit
                && stack == outer + [top + Eval(code).kept]
                && sent == old(sent) + Statements(code)
      ensures code.Write? && (old(broken) || |old(sent)| >= lasts) ==> exit == Error
      decreases code, 1
    {
      AppendNothing(top);
      match code
      case Done =>
        exit := Normal;
      case Raise(cancelled) =>
        exit := if cancelled then Cancelled else Error;
      case Write(v, next) =>
        var ok := Send(Insert(v));
        if !ok {
          return Error;
        }
        assert stack == outer + [top + [v]];
        exit := Run(next, outer, top + [v]);
        AppendTwice(top, [v], Eval(next).kept);
      case Savepoint(body, handler, next) =>
        exit := RunBlock(body, handler, next, code, outer, top);
    }

    /** A savepoint block and what follows it. */
    method RunBlock(body: Code<W>, handler: bool, next: Code<W>, ghost code: Code<W>, ghost outer: seq<seq<W>>,
                    ghost top: seq<W>) returns (exit: Exit)
      requires code == Savepoint(body, handler, next) && (!broken ==> stack == outer + [top])
      modifies this`stack, this`sent, this`broken
      ensures broken <==> old(broken) || (Statements(code) != [] && |old(sent)| + |Statements(code)| > lasts)
      ensures !broken ==>
                && exit == Eval(code).exit
                && stack == outer + [top + Eval(code).kept]
                && sent == old(sent) + Statements(code)
      decreases code, 0
    {
      ghost var before, close: Statement<W> := sent, Closing(Eval(body).exit);
      AppendNothing(top);
      exit := RunSavepoint(body, outer, top);
      BlockThen(before, Open, Statements(body), close, []);
      BlockThen(before, Open, Statements(body), close, Statements(next));
      if exit == Normal || Stops(handler, exit) {
        ghost var here := if exit == Normal then top + Eval(body).kept else top;
        if exit == Normal {
          AppendTwice(top, Eval(body).kept, Eval(next).kept);
        }
        exit := Run(next, outer, here);
      }
    }

    /** Commit on a clean exit, else roll back. `sinkRaises`: recording the outcome raises, which
        happens after all that and before the connection is given back. */
    method Exit(raised: Exit, ending: Ending, sinkRaises: bool) returns (r: Outcome)
      requires Active()
      modifies this, server
      ensures server.acquired == old(server.acquired)
      ensures conn == sinkRaises && server.released == old(server.released) + if sinkRaises then 0 else 1
      ensures raised != Normal ==> r == RolledBack(raised) && server.committed == old(server.committed)
      ensures raised == Cancelled ==> invalidated
      ensures raised == Normal && ending == Confirmed && !old(broken) ==>
                r == Committed && server.committed == old(server.committed) + old(stack)[0]
      ensures raised == Normal && ending.Lost? ==>
                && r == CommitUnknown
                && server.committed
                   == old(server.committed) + if ending.applied && !old(broken) then old(stack)[0] else []
      ensures raised == Normal && !ending.Lost? && (ending == Refused || old(broken)) ==>
                r == CommitRefused && server.committed == old(server.committed)
      ensures sent == old(sent) && broken == old(broken) && stack == []
    {
      if raised != Normal {
        RollBack(raised == Cancelled);
        r := RolledBack(raised);
      } else {
        r := Commit(ending);
      }
      if !sinkRaises {
        Release();
      }
    }

    /** A connection whose state is uncertain does not go back to the pool. */
    method RollBack(cancelled: bool)
      requires Active()
      modifies this`stack, this`invalidated
      ensures (cancelled ==> invalidated) && stack == []
    {
      stack := [];
      var fails: bool := *;
      if fails || cancelled {
        invalidated := true;
      }
    }

    method Commit(ending: Ending) returns (r: Outcome)
      requires Active()
      modifies this`stack, server`committed
      ensures r == if ending.Lost? then CommitUnknown else if ending == Refused || old(broken) then CommitRefused
                   else Committed
      ensures server.committed
           == old(server.committed)
              + if !old(broken) && (ending == Confirmed || ending == Lost(true)) then old(stack)[0] else []
      ensures stack == []
    {
      r := match ending
           case Lost(_) => CommitUnknown
           case Refused => CommitRefused
           case Confirmed => if broken then CommitRefused else Committed;
      if !broken && (ending == Confirmed || ending == Lost(true)) {
        server.committed := server.committed + stack[0];
      } else {
        AppendNothing(server.committed);
      }
      stack := [];
    }

    /** Main result. `async with db.transaction()` around any code. If it is entered, the session lasts, the
        code ends normally and COMMIT is confirmed, exactly the writes that no rolled-back block encloses are
        committed. A lost COMMIT may have done the same. In every other case nothing is committed. The
        connection is given back once if it was checked out at all, unless recording raises. */
    method Transact(code: Code<W>, opening: Opening, ending: Ending, sinkRaises: bool) returns (r: Outcome)
      requires !conn && !trans && !broken && sent == []
      modifies this, server
      ensures r == EnterFailed <==> !(opening.connects && opening.configures && opening.begins && opening.applies)
      ensures r != EnterFailed ==> (broken <==> |Statements(code)| > lasts)
      ensures r != EnterFailed && !broken ==> sent == Statements(code)
      ensures r == Committed ==> !broken && ending == Confirmed
      ensures r != EnterFailed && !broken ==>
                (Eval(code).exit == Normal <==> !r.RolledBack?)
                && (Eval(code).exit != Normal ==> r == RolledBack(Eval(code).exit))
      ensures r != EnterFailed && !broken && Eval(code).exit == Normal ==>
                r == match ending case Confirmed => Committed case Refused => CommitRefused case Lost(_) => CommitUnknown
      ensures server.committed
           == old(server.committed)
              + if r == Committed || (r == CommitUnknown && !broken && ending == Lost(true))
                then Survivors(Statements(code)) else []
      ensures server.acquired <= old(server.acquired) + 1
      ensures server.released - old(server.released) == server.acquired - old(server.acquired)
              <==> r == EnterFailed || !sinkRaises
    {
      AppendNothing(server.committed);
      var ok := Enter(opening);
      if !ok {
        return EnterFailed;
      }
      var exit := Run(code, [], []);
      TreeMeaning(code);
      AppendNothing(Eval(code).kept);
      r := Exit(exit, ending, sinkRaises);
    }
  }
}
