/** BatchCollector of `integrations/batch.py`. One step is one stay under its lock; the callback runs
    inside it. */
module Batch {
  import opened Wrappers

  /** A batch as the callback gets it. `cancelled`: the task that runs the callback has a pending
      cancellation, which strikes at the callback's first suspension. */
  datatype Handed<T> = Handed(items: seq<T>, cancelled: bool)

  /** Timers are numbered in the order they are started. */
  datatype State<T> = State(buffer: seq<T>, timer: Option<nat>, closed: bool, started: nat,
                            cancelled: set<nat>, handed: seq<Handed<T>>)

  datatype Action<T> = Add(item: T) | Flush | Close | Fire(timer: nat)

  function Initial<T>(): State<T> {
    State([], None, false, 0, {}, [])
  }

  /** `runner` is the timer that runs this, if it is one. It cancels itself before it hands over. */
  function FlushLocked<T>(s: State<T>, runner: Option<nat>): State<T> {
    var cancelled := if s.timer.Some? then s.cancelled + {s.timer.value} else s.cancelled;
    var batch := if s.buffer == [] then [] else [Handed(s.buffer, runner.Some? && runner.value in cancelled)];
    State([], None, s.closed, s.started, cancelled, s.handed + batch)
  }

  /** None: the step cannot happen here; an add to a closed collector raises and changes nothing. */
  function Next<T>(maxSize: int, s: State<T>, a: Action<T>): Option<State<T>> {
    match a
    case Add(item) =>
      if s.closed then Some(s)
      else
        var t := s.(buffer := s.buffer + [item]);
        if |t.buffer| >= maxSize then Some(FlushLocked(t, None))
        else if t.timer == None then Some(t.(timer := Some(t.started), started := t.started + 1))
        else Some(t)
    case Flush => Some(FlushLocked(s, None))
    case Close => Some(FlushLocked(s.(closed := true), None))
    case Fire(i) =>
      if i >= s.started || i in s.cancelled then None else Some(FlushLocked(s, Some(i)))
  }

  function Exec<T>(maxSize: int, s: State<T>, actions: seq<Action<T>>): Option<State<T>>
    decreases |actions|
  {
    if actions == [] then Some(s)
    else match Next(maxSize, s, actions[0])
         case Some(s') => Exec(maxSize, s', actions[1..])
         case None => None
  }

  /** The items added before the first close. */
  function Accepted<T>(actions: seq<Action<T>>): seq<T> {
    if actions == [] || actions[0].Close? then []
    else (if actions[0].Add? then [actions[0].item] else []) + Accepted(actions[1..])
  }

  function Items<T>(handed: seq<Handed<T>>): seq<T> {
    if handed == [] then [] else Items(handed[..|handed| - 1]) + handed[|handed| - 1].items
  }

  /** The only timer still alive is the armed one. */
  ghost predicate TimersMatch<T>(s: State<T>) {
    && (forall i: nat :: i in s.cancelled ==> i < s.started)
    && forall i: nat :: i < s.started && i !in s.cancelled <==> s.timer == Some(i)
  }

  predicate BatchesFit<T>(maxSize: int, handed: seq<Handed<T>>) {
    forall k :: 0 <= k < |handed| ==> 0 < |handed[k].items| <= maxSize
  }

  /** Whatever is buffered has an armed timer, and nothing is once the collector is closed. */
  ghost predicate Valid<T>(maxSize: int, s: State<T>) {
    && TimersMatch(s) && BatchesFit(maxSize, s.handed)
    && (s.buffer != [] ==> s.timer.Some?)
    && |s.buffer| < maxSize
    && (s.closed ==> s.buffer == [])
  }

  /** Everything accepted so far: handed over, then buffered. */
  function Content<T>(s: State<T>): seq<T> {
    Items(s.handed) + s.buffer
  }

  lemma FlushHandsAll<T>(maxSize: int, s: State<T>, runner: Option<nat>)
    requires TimersMatch(s) && BatchesFit(maxSize, s.handed) && |s.buffer| <= maxSize && maxSize > 0
    ensures Valid(maxSize, FlushLocked(s, runner))
    ensures Content(FlushLocked(s, runner)) == Content(s)
  {
    var t := FlushLocked(s, runner);
    if s.buffer == [] {
      assert t.handed == s.handed;
    } else {
      assert t.handed[..|t.handed| - 1] == s.handed;
      assert Items(t.handed) == Items(s.handed) + s.buffer;
    }
  }

  /** What a step adds to the content. */
  function Added<T>(s: State<T>, a: Action<T>): seq<T> {
    if a.Add? && !s.closed then [a.item] else []
  }

  /** An add hands over a full batch or keeps the item until one is full or the timer fires. */
  lemma AddWaitsUntilFull<T>(maxSize: int, s: State<T>, item: T)
    requires Valid(maxSize, s) && !s.closed
    ensures var t := Next(maxSize, s, Add(item)).value;
            if |s.buffer| + 1 < maxSize then
              t.handed == s.handed && t.buffer == s.buffer + [item] && t.timer.Some?
            else
              && |s.buffer + [item]| == maxSize && t.buffer == []
              && t.handed == s.handed + [Handed(s.buffer + [item], false)]
  {}

  /** One step: items are appended or handed over, never reordered or dropped. */
  lemma StepConserves<T>(maxSize: int, s: State<T>, a: Action<T>)
    requires Valid(maxSize, s) && Next(maxSize, s, a).Some?
    ensures Valid(maxSize, Next(maxSize, s, a).value)
    ensures Content(Next(maxSize, s, a).value) == Content(s) + Added(s, a)
    ensures Next(maxSize, s, a).value.closed == (s.closed || a.Close?)
  {
    match a
    case Add(item) =>
      if !s.closed {
        var t := s.(buffer := s.buffer + [item]);
        Regroup(Items(s.handed), s.buffer, [item]);
        if |t.buffer| >= maxSize {
          FlushHandsAll(maxSize, t, None);
        }
      }
    case Flush => FlushHandsAll(maxSize, s, None);
    case Close => FlushHandsAll(maxSize, s.(closed := true), None);
    case Fire(i) => FlushHandsAll(maxSize, s, Some(i));
  }

  lemma Regroup<T>(a: seq<T>, b: seq<T>, c: seq<T>)
    ensures a + b + c == a + (b + c)
  {}

  /** Main result: after any sequence of steps, the batches handed over followed by the buffer are the
      accepted items in order. */
  lemma {:induction false} ItemsConserved<T>(maxSize: int, s: State<T>, actions: seq<Action<T>>)
    requires Valid(maxSize, s) && Exec(maxSize, s, actions).Some?
    ensures Valid(maxSize, Exec(maxSize, s, actions).value)
    ensures Content(Exec(maxSize, s, actions).value) == Content(s) + if s.closed then [] else Accepted(actions)
    decreases |actions|
  {
    if actions != [] {
      var a, rest := actions[0], actions[1..];
      StepConserves(maxSize, s, a);
      ItemsConserved(maxSize, Next(maxSize, s, a).value, rest);
      if !s.closed && !a.Close? {
        Regroup(Content(s), Added(s, a), Accepted(rest));
      }
    }
  }

  lemma RunsConserve<T>(maxSize: int, actions: seq<Action<T>>)
    requires maxSize >= 1 && Exec(maxSize, Initial<T>(), actions).Some?
    ensures var t := Exec(maxSize, Initial<T>(), actions).value;
            && Valid(maxSize, t) && Items(t.handed) + t.buffer == Accepted(actions)
            && (forall k :: 0 <= k < |t.handed| ==> 0 < |t.handed[k].items| <= maxSize)
            && |t.buffer| < maxSize && (t.buffer != [] ==> t.timer.Some?)
  {
    ItemsConserved(maxSize, Initial<T>(), actions);
    assert Content(Initial<T>()) + Accepted(actions) == Accepted(actions);
  }

  /** After a close nothing is buffered or handed over any more. */
  lemma {:induction false} ClosedForGood<T>(maxSize: int, s: State<T>, actions: seq<Action<T>>)
    requires Valid(maxSize, s) && s.closed && Exec(maxSize, s, actions).Some?
    ensures var t := Exec(maxSize, s, actions).value;
            t.closed && t.buffer == [] && t.handed == s.handed
    decreases |actions|
  {
    if actions != [] {
      StepConserves(maxSize, s, actions[0]);
      var s' := Next(maxSize, s, actions[0]).value;
      assert s'.handed == s.handed;
      ClosedForGood(maxSize, s', actions[1..]);
    }
  }

  /** What is buffered cannot be stranded: its timer can still fire, and then hands all of it over. */
  lemma BufferedWillBeHanded<T>(maxSize: int, s: State<T>)
    requires Valid(maxSize, s) && s.buffer != []
    ensures s.timer.Some?
    ensures var t := Next(maxSize, s, Fire(s.timer.value));
            && t.Some? && t.value.buffer == []
            && Items(t.value.handed) == Items(s.handed) + s.buffer
  {
    FlushHandsAll(maxSize, s, s.timer);
    var t := Next(maxSize, s, Fire(s.timer.value)).value;
    assert Content(t) == Items(t.handed);
  }

  /** But a batch handed over by a timer runs in a task that has just cancelled itself: exactly the
      batches of timer flushes do, so conservation reaches no further than the callback. */
  lemma TimerCancelsItself<T>(maxSize: int, s: State<T>, a: Action<T>)
    requires Valid(maxSize, s) && Next(maxSize, s, a).Some?
    requires Next(maxSize, s, a).value.handed != s.handed
    ensures var t := Next(maxSize, s, a).value;
            |t.handed| == |s.handed| + 1 && t.handed[|s.handed|].cancelled == a.Fire?
  {
    if a.Fire? {
      assert a.timer < s.started && a.timer !in s.cancelled;
      assert s.timer == Some(a.timer);
    }
  }

  class BatchCollector<T> {
    const maxSize: int
    var buffer: seq<T>
    var timer: Option<nat>
    var closed: bool
    var started: nat               // how many timer tasks were created
    ghost var cancelled: set<nat>
    ghost var handed: seq<Handed<T>>

    ghost function Now(): State<T>
      reads this
    {
      State(buffer, timer, closed, started, cancelled, handed)
    }

    ghost predicate Ready()
      reads this
    {
      Valid(maxSize, Now())
    }

    constructor (maxSize: int)
      requires maxSize >= 1
      ensures Ready() && Now() == Initial<T>() && this.maxSize == maxSize
    {
      this.maxSize, buffer, timer, closed := maxSize, [], None, false;
      started, cancelled, handed := 0, {}, [];
    }

    /** False: an exception, because the collector is closed or from the callback. */
    method Add(item: T) returns (ok: bool)
      requires Ready()
      modifies this
      ensures Ready() && Some(Now()) == Next(maxSize, old(Now()), Action.Add(item))
      ensures old(closed) ==> !ok && Now() == old(Now())
      ensures !old(closed) && |old(buffer)| + 1 < maxSize ==>
                ok && buffer == old(buffer) + [item] && handed == old(handed) && timer.Some?
      ensures !old(closed) && |old(buffer)| + 1 >= maxSize ==>
                buffer == [] && handed == old(handed) + [Handed(old(buffer) + [item], false)]
    {
      StepConserves(maxSize, Now(), Action.Add(item));
      if closed {
        return false;
      }
      buffer := buffer + [item];
      ok := true;
      if |buffer| >= maxSize {
        ok := FlushBuffer(None);
      } else if timer == None {
        timer, started := Some(started), started + 1;
      }
    }

    method Flush() returns (ok: bool)
      requires Ready()
      modifies this
      ensures Ready() && Some(Now()) == Next(maxSize, old(Now()), Action.Flush)
    {
      StepConserves(maxSize, Now(), Action.Flush);
      ok := FlushBuffer(None);
    }

    method Close() returns (ok: bool)
      requires Ready()
      modifies this
      ensures Ready() && Some(Now()) == Next(maxSize, old(Now()), Action.Close)
      ensures closed && buffer == []
    {
      StepConserves(maxSize, Now(), Action.Close);
      closed := true;
      ok := FlushBuffer(None);
    }

    /** What a timer task does once its sleep is over; a task cancelled before that does nothing. */
    method TimerFlush(me: nat) returns (ok: bool)
      requires Ready() && me < started && me !in cancelled
      modifies this
      ensures Ready() && Some(Now()) == Next(maxSize, old(Now()), Fire(me))
      ensures me in cancelled && buffer == []
    {
      StepConserves(maxSize, Now(), Fire(me));
      ok := FlushBuffer(Some(me));
    }

    /** The callback may raise, and then the batch is gone from the buffer all the same. */
    method FlushBuffer(runner: Option<nat>) returns (ok: bool)
      modifies this`buffer, this`timer, this`cancelled, this`handed
      ensures Now() == FlushLocked(old(Now()), runner)
      ensures old(buffer) == [] ==> ok
    {
      if timer.Some? {
        cancelled := cancelled + {timer.value};
        timer := None;
      }
      if buffer == [] {
        assert handed + [] == handed;
        return true;
      }
      var items := buffer;
      buffer := [];
      handed := handed + [Handed(items, runner.Some? && runner.value in cancelled)];
      ok := *;
    }
  }
}
