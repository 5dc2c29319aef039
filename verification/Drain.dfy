/**
 The end of a daemon's run (serve, accept, closeConnections and serveConn in internal/daemon/server.go):
 the accept loop, connection loops and handlers with their two wait groups, and the goroutine that
 closes `done`. Each event is one step of one goroutine; an event that is not possible changes nothing.
 */
module Drain {
  import opened Counting

  // ---------- goroutines ----------

  datatype Acceptor = Accepting | Accepted | Adding(c: nat) | Ended

  /**
   A connection: put into the map, counted in `connWG`, then its loop runs. `Launching` is between
   `handlerWG.Add` and the start of the handler's goroutine; `Deleted` between the removal from the
   map and `connWG.Done`.
   */
  datatype Phase = Mapped | Counted | Looping | Launching | Deleted | Over

  datatype Handler = Running | Done

  datatype Serve = Serving | ListenerClosed | Cancelled | Joined | ConnsClosed | Draining

  datatype Drainer = NotStarted | AwaitConns | AwaitHandlers | Drained

  datatype State = State(
    acceptor: Acceptor, phases: seq<Phase>, handlers: seq<Handler>, conns: set<nat>,
    connWG: nat, handlerWG: nat, serve: Serve, drainer: Drainer)

  const NEW := State(Accepting, [], [], {}, 0, 0, Serving, NotStarted)

  datatype Event =
    | Accept
    | Reject
    | Map
    | CountConn
    | SpawnConn
    | EndAccept
    | AddHandler(c: nat)
    | Launch(c: nat)
    | EndLoop(c: nat)
    | ConnDone(c: nat)
    | HandlerDone(h: nat)
    | AdvanceServe
    | AdvanceDrain

  // ---------- the steps ----------

  /** `accept`: an accepted connection is rejected, or mapped, counted and started. */
  function AcceptStep(s: State, e: Event): State {
    match e
    case Accept => if s.acceptor.Accepting? && s.serve.Serving? then s.(acceptor := Accepted) else s
    case Reject => if s.acceptor.Accepted? then s.(acceptor := Accepting) else s
    case Map =>
      if s.acceptor.Accepted? then
        s.(acceptor := Adding(|s.phases|), phases := s.phases + [Mapped], conns := s.conns + {|s.phases|})
      else s
    case CountConn =>
      if s.acceptor.Adding? && PhaseOf(s, s.acceptor.c).Mapped? then
        To(s, s.acceptor.c, Counted).(connWG := s.connWG + 1)
      else s
    case SpawnConn =>
      if s.acceptor.Adding? && PhaseOf(s, s.acceptor.c).Counted? then To(s, s.acceptor.c, Looping).(acceptor := Accepting)
      else s
    case EndAccept => if s.acceptor.Accepting? then s.(acceptor := Ended) else s
    case _ => s
  }

  function PhaseOf(s: State, c: nat): Phase {
    if c < |s.phases| then s.phases[c] else Over
  }

  function To(s: State, c: nat, phase: Phase): State {
    if c < |s.phases| then s.(phases := s.phases[c := phase]) else s
  }

  /** `serveConn`: handlers are counted before they start; the connection leaves the map, then its group. */
  function ConnStep(s: State, e: Event): State {
    match e
    case AddHandler(c) =>
      if PhaseOf(s, c).Looping? then To(s, c, Launching).(handlerWG := s.handlerWG + 1) else s
    case Launch(c) =>
      if PhaseOf(s, c).Launching? then To(s, c, Looping).(handlers := s.handlers + [Running]) else s
    case EndLoop(c) =>
      if PhaseOf(s, c).Looping? then To(s, c, Deleted).(conns := s.conns - {c}) else s
    case ConnDone(c) =>
      if PhaseOf(s, c).Deleted? && s.connWG > 0 then To(s, c, Over).(connWG := s.connWG - 1) else s
    case _ => s
  }

  function HandlerStep(s: State, h: nat): State {
    if h < |s.handlers| && s.handlers[h].Running? && s.handlerWG > 0 then
      s.(handlers := s.handlers[h := Done], handlerWG := s.handlerWG - 1)
    else s
  }

  /** The end of `serve`: close the listener, cancel, wait for `accept`, close connections, start the drain. */
  function ServeStep(s: State): State {
    match s.serve
    case Serving => s.(serve := ListenerClosed)
    case ListenerClosed => s.(serve := Cancelled)
    case Cancelled => if s.acceptor.Ended? then s.(serve := Joined) else s
    case Joined => s.(serve := ConnsClosed)
    case ConnsClosed => s.(serve := Draining, drainer := AwaitConns)
    case Draining => s
  }

  /** `connWG.Wait(); handlerWG.Wait(); close(done)` */
  function DrainStep(s: State): State {
    match s.drainer
    case AwaitConns => if s.connWG == 0 then s.(drainer := AwaitHandlers) else s
    case AwaitHandlers => if s.handlerWG == 0 then s.(drainer := Drained) else s
    case _ => s
  }

  function Step(s: State, e: Event): State {
    match e
    case AdvanceServe => ServeStep(s)
    case AdvanceDrain => DrainStep(s)
    case HandlerDone(h) => HandlerStep(s, h)
    case AddHandler(_) => ConnStep(s, e)
    case Launch(_) => ConnStep(s, e)
    case EndLoop(_) => ConnStep(s, e)
    case ConnDone(_) => ConnStep(s, e)
    case _ => AcceptStep(s, e)
  }

  function Run(es: seq<Event>): State {
    if es == [] then NEW else Step(Run(es[..|es| - 1]), es[|es| - 1])
  }

  // ---------- the invariant ----------

  function InGroup(p: Phase): nat { One(p.Counted? || p.Looping? || p.Launching? || p.Deleted?) }

  function Promised(p: Phase): nat { One(p.Launching?) }

  function Alive(h: Handler): nat { One(h.Running?) }

  /** Each wait group counts exactly what has been added and is not done. */
  ghost predicate GroupsOk(s: State) {
    (s.connWG, s.handlerWG) == (Total(s.phases, InGroup), Total(s.handlers, Alive) + Total(s.phases, Promised))
  }

  ghost predicate AcceptOk(s: State) {
    && (s.acceptor.Adding? ==> s.acceptor.c < |s.phases|)
    && forall c :: 0 <= c < |s.phases| ==>
         && (s.phases[c].Mapped? || s.phases[c].Counted? <==> s.acceptor == Adding(c))
         && (c in s.conns <==> !s.phases[c].Deleted? && !s.phases[c].Over?)
  }

  ghost predicate ConnsInRange(s: State) {
    forall c :: c in s.conns ==> c < |s.phases|
  }

  ghost predicate AllOver(s: State) {
    forall c :: 0 <= c < |s.phases| ==> s.phases[c].Over?
  }

  ghost predicate AllDone(s: State) {
    forall h :: 0 <= h < |s.handlers| ==> s.handlers[h].Done?
  }

  ghost predicate OrderOk(s: State) {
    && (s.serve.Joined? || s.serve.ConnsClosed? || s.serve.Draining? ==> s.acceptor.Ended?)
    && (!s.drainer.NotStarted? <==> s.serve.Draining?)
    && (s.drainer.AwaitHandlers? || s.drainer.Drained? ==> AllOver(s))
    && (s.drainer.Drained? ==> AllDone(s))
  }

  ghost predicate Inv(s: State) {
    && GroupsOk(s)
    && AcceptOk(s)
    && ConnsInRange(s)
    && OrderOk(s)
  }
}
