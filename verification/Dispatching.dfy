/**
 How the client's notification dispatcher waits (dispatchNotifications, readLoop and Close in
 internal/daemonclient/client.go): one mutex, one condition variable, a reader that signals under the
 mutex and a close that broadcasts without it. Each event is one step of one goroutine; an event that
 is not possible changes nothing.
 */
module Dispatching {

  /**
   Where the dispatcher stands. It holds the mutex while `Looking` at the queue, while `Unready`, having found
   it empty, and while `Parking`, having found the client open; `Asleep` is inside `Wait`.
   */
  datatype Dispatcher = Outside | Looking | Unready | Parking | Asleep | Woken | Calling | Finished

  /** The reader holds the mutex while it appends and signals. */
  datatype Reader = Away | Appending | Signalled

  /** `Close` closes the channel, then broadcasts. */
  datatype Closer = Open | Closed | Announced

  /** `read` counts the notifications put into the queue so far, `called` those a callback has been called with. */
  datatype State = State(dispatcher: Dispatcher, reader: Reader, closer: Closer, queue: nat, read: nat, called: nat)

  datatype Event = Dispatch | Read | Close | Broadcast

  const NEW := State(Outside, Away, Open, 0, 0, 0)

  predicate Holds(d: Dispatcher) {
    d.Looking? || d.Unready? || d.Parking?
  }

  predicate Free(s: State) {
    !Holds(s.dispatcher) && s.reader.Away?
  }

  function Wake(s: State): State {
    if s.dispatcher.Asleep? then s.(dispatcher := Woken) else s
  }

  function DoDispatch(s: State): State {
    match s.dispatcher
    case Outside => if Free(s) then s.(dispatcher := Looking) else s
    case Looking => if s.queue > 0 then s.(dispatcher := Calling, queue := s.queue - 1) else s.(dispatcher := Unready)
    case Unready => s.(dispatcher := if s.closer.Open? then Parking else Finished)
    case Parking => s.(dispatcher := Asleep)
    case Asleep => s
    case Woken => if Free(s) then s.(dispatcher := Looking) else s
    case Calling => s.(dispatcher := Outside, called := s.called + 1)
    case Finished => s
  }

  function DoRead(s: State): State {
    match s.reader
    case Away => if Free(s) then s.(reader := Appending) else s
    case Appending => Wake(s.(reader := Signalled, queue := s.queue + 1, read := s.read + 1))
    case Signalled => s.(reader := Away)
  }

  function Step(s: State, e: Event): State {
    match e
    case Dispatch => DoDispatch(s)
    case Read => DoRead(s)
    case Close => if s.closer.Open? then s.(closer := Closed) else s
    case Broadcast => if s.closer.Closed? then Wake(s.(closer := Announced)) else s
  }

  function Run(es: seq<Event>): State {
    if es == [] then NEW else Step(Run(es[..|es| - 1]), es[|es| - 1])
  }

  /**
   One goroutine has the mutex, a dispatcher that found the queue empty still finds it so, also when it
   sleeps, and every notification read is in the queue, in hand or has been called.
   */
  predicate Inv(s: State) {
    && (Holds(s.dispatcher) ==> s.reader.Away?)
    && (s.dispatcher.Unready? || s.dispatcher.Parking? || s.dispatcher.Asleep? ==> s.queue == 0)
    && s.read == s.called + s.queue + if s.dispatcher.Calling? then 1 else 0
  }

  lemma {:induction false} RunKeeps(es: seq<Event>)
    ensures Inv(Run(es))
  {
    if es != [] { RunKeeps(es[..|es| - 1]); }
  }

  lemma {:induction false} RunSnoc(es: seq<Event>, e: Event)
    ensures Run(es + [e]) == Step(Run(es), e)
  {
    assert (es + [e])[..|es|] == es;
  }

  // ---------- no notification is left lying ----------

  /** `n` steps of the dispatcher. */
  function Advance(s: State, n: nat): State
    decreases n
  {
    if n == 0 then s else Advance(DoDispatch(s), n - 1)
  }

  /** What the dispatcher has to do until nothing is queued and it is back at its wait, or has returned. */
  function Work(s: State): nat {
    match s.dispatcher
    case Calling => 4 * s.queue + 5
    case Outside => 4 * s.queue + 4
    case Woken => 4 * s.queue + 4
    case Looking => 4 * s.queue + 3
    case Unready => 2
    case Parking => 1
    case _ => 0
  }

  lemma {:induction false} WorksOff(s: State, n: nat)
    requires Inv(s) && s.reader.Away? && !s.dispatcher.Finished? && n >= Work(s)
    ensures var t := Advance(s, n);
            (t.dispatcher.Asleep? || t.dispatcher.Finished?) && t.reader.Away? && t.queue == 0 && t.called == t.read == s.read
    decreases n
  {
    if n > 0 && !DoDispatch(s).dispatcher.Finished? {
      WorksOff(DoDispatch(s), n - 1);
    } else if n > 0 {
      StaysFinished(DoDispatch(s), n - 1);
    }
  }

  lemma {:induction false} StaysFinished(s: State, n: nat)
    requires s.dispatcher.Finished?
    ensures Advance(s, n) == s
    decreases n
  {
    if n > 0 { StaysFinished(s, n - 1); }
  }

  /**
   A notification is never slept through: from any state of any run with the reader out of the mutex and the
   dispatcher not returned, its own steps call what is queued to the last, and then the mutex is free.
   */
  lemma {:induction false} EveryNoteIsCalled(es: seq<Event>)
    requires Run(es).reader.Away? && !Run(es).dispatcher.Finished?
    ensures var s := Run(es);
            var t := Advance(s, Work(s));
            Free(t) && t.queue == 0 && t.called == t.read == s.read
    ensures Run(es).dispatcher.Asleep? ==> Run(es).called == Run(es).read
  {
    hide Run, Advance;
    RunKeeps(es);
    WorksOff(Run(es), Work(Run(es)));
  }

  /** With the mutex free the reader's three steps add one notification, and the dispatcher is not asleep after them. */
  lemma {:induction false} ReadReachesQueue(es: seq<Event>)
    requires Free(Run(es))
    ensures var s, t := Run(es), Run(es + [Read] + [Read] + [Read]);
            t.reader.Away? && t.read == s.read + 1 && t.queue == s.queue + 1 && !t.dispatcher.Asleep?
  {
    hide Run;
    RunSnoc(es, Read);
    RunSnoc(es + [Read], Read);
    RunSnoc(es + [Read] + [Read], Read);
  }

  // ---------- after the broadcast ----------

  /** The close has been announced, and the dispatcher did not miss it. */
  predicate Awake(s: State) {
    s.closer.Announced? && !s.dispatcher.Parking? && !s.dispatcher.Asleep?
  }

  lemma {:induction false} StaysAwake(es: seq<Event>, fs: seq<Event>)
    requires Awake(Run(es))
    ensures Awake(Run(es + fs))
    decreases |fs|
  {
    if fs == [] {
      assert es + fs == es;
    } else {
      var n := |fs| - 1;
      StaysAwake(es, fs[..n]);
      assert es + fs == es + fs[..n] + [fs[n]];
      RunSnoc(es + fs[..n], fs[n]);
    }
  }

  /** No notification is read. */
  predicate Quiet(fs: seq<Event>) {
    forall k :: 0 <= k < |fs| ==> !fs[k].Read?
  }

  /** A dispatcher that missed the broadcast falls asleep and stays so while nothing is read. */
  lemma {:induction false} SleepsOn(es: seq<Event>, fs: seq<Event>)
    requires Run(es).closer.Announced? && (Run(es).dispatcher.Parking? || Run(es).dispatcher.Asleep?) && Quiet(fs)
    ensures var s := Run(es + fs); s.closer.Announced? && (s.dispatcher.Parking? || s.dispatcher.Asleep?)
    decreases |fs|
  {
    if fs == [] {
      assert es + fs == es;
    } else {
      var n := |fs| - 1;
      SleepsOn(es, fs[..n]);
      assert es + fs == es + fs[..n] + [fs[n]];
      RunSnoc(es + fs[..n], fs[n]);
    }
  }

  /** What the dispatcher has still to do once the close is announced. */
  function Left(s: State): nat {
    match s.dispatcher
    case Calling => 3 * s.queue + 4
    case Outside => 3 * s.queue + 3
    case Woken => 3 * s.queue + 3
    case Looking => 3 * s.queue + 2
    case Unready => 1
    case _ => 0
  }

  lemma {:induction false} AdvanceReturns(s: State, n: nat)
    requires Awake(s) && s.reader.Away? && Inv(s) && n >= Left(s)
    ensures Advance(s, n).dispatcher.Finished?
    ensures !s.dispatcher.Finished? ==> Advance(s, n).called == s.read
    decreases n
  {
    if n > 0 {
      AdvanceReturns(DoDispatch(s), n - 1);
      if DoDispatch(s).dispatcher.Finished? { StaysFinished(DoDispatch(s), n - 1); }
    }
  }

  /** Whether this order of events leaves the dispatcher asleep after the broadcast, for as long as nothing is read. */
  ghost predicate MissesClose(es: seq<Event>) {
    exists fs :: Quiet(fs) && Run(es + [Broadcast] + fs).dispatcher.Asleep?
  }

  /**
   The dispatcher can sleep through the close exactly when the broadcast comes between its look at the
   client and its wait: then it never returns while nothing more is read.
   */
  lemma {:induction false} MissesExactly(es: seq<Event>)
    requires Run(es).closer.Closed?
    ensures MissesClose(es) <==> Run(es).dispatcher.Parking?
    ensures Run(es).dispatcher.Parking? ==> forall fs :: Quiet(fs) ==> !Run(es + [Broadcast] + fs).dispatcher.Finished?
  {
    hide Run;
    RunSnoc(es, Broadcast);
    if Run(es).dispatcher.Parking? {
      RunSnoc(es + [Broadcast], Dispatch);
      assert Quiet([Dispatch]) && Run(es + [Broadcast] + [Dispatch]).dispatcher.Asleep?;
      forall fs | Quiet(fs) ensures !Run(es + [Broadcast] + fs).dispatcher.Finished? { SleepsOn(es + [Broadcast], fs); }
    } else {
      forall fs | Quiet(fs) ensures !Run(es + [Broadcast] + fs).dispatcher.Asleep? { StaysAwake(es + [Broadcast], fs); }
    }
  }

  /**
   Otherwise it never sleeps again, and from any later point at which the reader is out of the mutex its own
   steps take it through what is queued to its return.
   */
  lemma {:induction false} ReturnsUnlessMissed(es: seq<Event>, fs: seq<Event>)
    requires Run(es).closer.Closed? && !Run(es).dispatcher.Parking?
    ensures var s := Run(es + [Broadcast] + fs);
            && !s.dispatcher.Asleep?
            && (s.reader.Away? ==> Advance(s, Left(s)).dispatcher.Finished?)
            && (s.reader.Away? && !s.dispatcher.Finished? ==> Advance(s, Left(s)).called == s.read)
  {
    hide Run, Advance;
    RunSnoc(es, Broadcast);
    StaysAwake(es + [Broadcast], fs);
    var s := Run(es + [Broadcast] + fs);
    RunKeeps(es + [Broadcast] + fs);
    if s.reader.Away? {
      AdvanceReturns(s, Left(s));
    }
  }

  /** Such a run exists. */
  lemma {:induction false} LostWakeUp() returns (es: seq<Event>)
    ensures Run(es).closer.Closed? && Run(es).dispatcher.Parking?
  {
    es := [Dispatch, Dispatch, Dispatch, Close];
    assert es[..3] == [Dispatch, Dispatch, Dispatch] && es[..3][..2] == [Dispatch, Dispatch] && es[..3][..2][..1] == [Dispatch];
    assert Run([Dispatch]) == NEW.(dispatcher := Looking);
    assert Run([Dispatch, Dispatch]) == NEW.(dispatcher := Unready);
    assert Run([Dispatch, Dispatch, Dispatch]) == NEW.(dispatcher := Parking);
  }
}
