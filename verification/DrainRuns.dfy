/** Every run of the daemon's end: the wait groups count exactly, and the drain is sound. */
module DrainRuns {
  import opened Counting
  import opened Drain

  lemma {:induction false} PhaseMoves(s: State, t: State, c: nat, p: Phase)
    requires GroupsOk(s) && c < |s.phases| && t.phases == s.phases[c := p] && t.handlers == s.handlers
    requires t.connWG + InGroup(s.phases[c]) == s.connWG + InGroup(p)
    requires t.handlerWG + Promised(s.phases[c]) == s.handlerWG + Promised(p)
    ensures GroupsOk(t)
  {
    TotalUpdate(s.phases, c, p, InGroup);
    TotalUpdate(s.phases, c, p, Promised);
  }

  lemma {:induction false} KeepsAccept(s: State, e: Event)
    requires Inv(s) && (e.Accept? || e.Reject? || e.Map? || e.CountConn? || e.SpawnConn? || e.EndAccept?)
    ensures Inv(AcceptStep(s, e))
  {
    hide Total;
    var t := AcceptStep(s, e);
    if e.Map? && s.acceptor.Accepted? {
      TotalSnoc(s.phases, Mapped, InGroup);
      TotalSnoc(s.phases, Mapped, Promised);
    } else if t.phases != s.phases {
      PhaseMoves(s, t, s.acceptor.c, t.phases[s.acceptor.c]);
    }
  }

  lemma {:induction false} KeepsConn(s: State, e: Event, c: nat)
    requires Inv(s) && (e == AddHandler(c) || e == EndLoop(c) || e == ConnDone(c))
    ensures Inv(ConnStep(s, e))
  {
    hide GroupsOk;
    var t := ConnStep(s, e);
    if t != s {
      PhaseMoves(s, t, c, t.phases[c]);
    }
  }

  lemma {:induction false} KeepsLaunch(s: State, c: nat)
    requires Inv(s)
    ensures Inv(ConnStep(s, Launch(c)))
  {
    hide Total;
    if PhaseOf(s, c).Launching? {
      TotalUpdate(s.phases, c, Looping, InGroup);
      TotalUpdate(s.phases, c, Looping, Promised);
      TotalSnoc(s.handlers, Running, Alive);
    }
  }

  lemma {:induction false} KeepsHandler(s: State, h: nat)
    requires Inv(s)
    ensures Inv(HandlerStep(s, h))
  {
    if h < |s.handlers| && s.handlers[h].Running? && s.handlerWG > 0 {
      TotalUpdate(s.handlers, h, Done, Alive);
    }
  }

  /** The first wait is over: since `accept` has ended, every connection is. */
  lemma {:induction false} ConnsAllOver(s: State)
    requires Inv(s) && s.acceptor.Ended? && s.connWG == 0
    ensures AllOver(s)
  {
    forall c | 0 <= c < |s.phases| ensures s.phases[c].Over? {
      TotalAtLeast(s.phases, c, InGroup);
    }
  }

  lemma {:induction false} HandlersAllDone(s: State)
    requires Inv(s) && s.handlerWG == 0
    ensures AllDone(s)
  {
    forall h | 0 <= h < |s.handlers| ensures s.handlers[h].Done? {
      TotalAtLeast(s.handlers, h, Alive);
    }
  }

  lemma {:induction false} KeepsEnding(s: State, e: Event)
    requires Inv(s) && (e.AdvanceServe? || e.AdvanceDrain?)
    ensures Inv(Step(s, e))
  {
    hide Total;
    if e.AdvanceDrain? {
      if s.drainer.AwaitConns? && s.connWG == 0 { ConnsAllOver(s); }
      if s.drainer.AwaitHandlers? && s.handlerWG == 0 { HandlersAllDone(s); }
    }
  }

  lemma {:induction false} StepKeeps(s: State, e: Event)
    requires Inv(s)
    ensures Inv(Step(s, e))
  {
    hide Inv, AcceptStep, ConnStep, HandlerStep, ServeStep, DrainStep;
    match e
    case AdvanceServe => KeepsEnding(s, e);
    case AdvanceDrain => KeepsEnding(s, e);
    case HandlerDone(h) => KeepsHandler(s, h);
    case AddHandler(c) => KeepsConn(s, e, c);
    case Launch(c) => KeepsLaunch(s, c);
    case EndLoop(c) => KeepsConn(s, e, c);
    case ConnDone(c) => KeepsConn(s, e, c);
    case _ => KeepsAccept(s, e);
  }

  lemma {:induction false} RunKeeps(es: seq<Event>)
    ensures Inv(Run(es))
  {
    if es != [] {
      hide Inv, Step;
      RunKeeps(es[..|es| - 1]);
      StepKeeps(Run(es[..|es| - 1]), es[|es| - 1]);
    }
  }

  // ---------- what every run promises ----------

  /** Once `done` is closed no handler is running, every connection is over and the map is empty. */
  lemma {:induction false} DrainedMeansIdle(es: seq<Event>)
    requires Run(es).drainer.Drained?
    ensures var s := Run(es); AllDone(s) && AllOver(s) && s.conns == {} && s.acceptor.Ended?
  {
    hide Run, GroupsOk;
    RunKeeps(es);
    var s := Run(es);
    forall c ensures c !in s.conns {
      if 0 <= c < |s.phases| { assert s.phases[c].Over?; }
    }
  }

  /** After that nothing can happen any more: no connection, no handler. */
  lemma {:induction false} DrainedStep(s: State, e: Event)
    requires Inv(s) && s.drainer.Drained?
    ensures Step(s, e) == s
  {
    hide GroupsOk;
  }

  lemma {:induction false} NothingStartsAgain(es: seq<Event>, more: seq<Event>)
    requires Run(es).drainer.Drained?
    ensures Run(es + more) == Run(es)
    decreases |more|
  {
    hide Step, Inv;
    if more == [] {
      assert es + more == es;
    } else {
      var init, e := more[..|more| - 1], more[|more| - 1];
      NothingStartsAgain(es, init);
      assert (es + more)[..|es + more| - 1] == es + init;
      RunKeeps(es);
      DrainedStep(Run(es), e);
    }
  }

  /** Each wait group is at zero exactly when nothing it counts is left. */
  lemma {:induction false} GroupsExact(es: seq<Event>)
    ensures var s := Run(es);
            && (s.connWG == 0 <==> forall c :: 0 <= c < |s.phases| ==> s.phases[c].Mapped? || s.phases[c].Over?)
            && (s.handlerWG == 0 <==> AllDone(s) && forall c :: 0 <= c < |s.phases| ==> !s.phases[c].Launching?)
  {
    hide Run, Total;
    RunKeeps(es);
    var s := Run(es);
    ZeroTotal(s.phases, InGroup);
    ZeroTotal(s.phases, Promised);
    ZeroTotal(s.handlers, Alive);
  }

  /** When the connections and handlers have ended, the drain goroutine is not kept waiting. */
  lemma {:induction false} DrainCompletes(es: seq<Event>)
    requires var s := Run(es); s.serve.Draining? && AllOver(s) && AllDone(s)
    ensures DrainStep(DrainStep(Run(es))).drainer.Drained?
  {
    hide Run;
    GroupsExact(es);
    RunKeeps(es);
  }

  // ---------- nothing is stuck short of the drain ----------

  function PhaseLeft(p: Phase): nat {
    match p
    case Mapped => 6
    case Counted => 5
    case Launching => 4
    case Looping => 2
    case Deleted => 1
    case Over => 0
  }

  function AcceptLeft(a: Acceptor): nat {
    match a
    case Accepting => 1
    case Accepted => 2
    case Adding(_) => 2
    case Ended => 0
  }

  function EndLeft(serve: Serve, drainer: Drainer): nat {
    var first := match serve
      case Serving => 5
      case ListenerClosed => 4
      case Cancelled => 3
      case Joined => 2
      case ConnsClosed => 1
      case Draining => 0;
    var second := match drainer
      case NotStarted => 3
      case AwaitConns => 2
      case AwaitHandlers => 1
      case Drained => 0;
    first + second
  }

  /** How far a state is from the end of the drain. */
  function Left(s: State): nat {
    Total(s.phases, PhaseLeft) + Total(s.handlers, Alive) + AcceptLeft(s.acceptor) + EndLeft(s.serve, s.drainer)
  }

  lemma {:induction false} ConnNearer(s: State, c: nat) returns (e: Event)
    requires Inv(s) && s.acceptor.Ended? && c < |s.phases| && !s.phases[c].Over?
    ensures Left(Step(s, e)) < Left(s)
    ensures s.phases[c].Looping? ==> e == EndLoop(c)
    ensures s.phases[c].Looping? || s.phases[c].Launching? || e == ConnDone(c)
  {
    hide Total;
    e := match s.phases[c]
      case Looping => EndLoop(c)
      case Launching => Launch(c)
      case _ => ConnDone(c);
    TotalUpdate(s.phases, c, Step(s, e).phases[c], PhaseLeft);
    TotalSnoc(s.handlers, Running, Alive);
    TotalAtLeast(s.phases, c, InGroup);
  }

  lemma {:induction false} HandlerNearer(s: State, h: nat)
    requires Inv(s) && h < |s.handlers| && s.handlers[h].Running?
    ensures Left(Step(s, HandlerDone(h))) < Left(s)
  {
    hide Total;
    TotalUpdate(s.handlers, h, Done, Alive);
    TotalAtLeast(s.handlers, h, Alive);
  }

  lemma {:induction false} AcceptNearer(s: State) returns (e: Event)
    requires Inv(s) && !s.acceptor.Ended?
    ensures Left(Step(s, e)) < Left(s)
    ensures e.CountConn? || e.SpawnConn? || e.Reject? || e.EndAccept?
  {
    hide Total;
    if s.acceptor.Adding? {
      var c := s.acceptor.c;
      e := if s.phases[c].Mapped? then CountConn else SpawnConn;
      TotalUpdate(s.phases, c, Step(s, e).phases[c], PhaseLeft);
    } else {
      e := if s.acceptor.Accepted? then Reject else EndAccept;
    }
  }

  lemma {:induction false} EndNearer(s: State) returns (e: Event)
    requires Inv(s) && s.acceptor.Ended? && AllOver(s) && AllDone(s) && !s.drainer.Drained?
    ensures Left(Step(s, e)) < Left(s)
    ensures e.AdvanceDrain? || e.AdvanceServe?
  {
    hide Total;
    ZeroTotal(s.phases, InGroup);
    ZeroTotal(s.phases, Promised);
    ZeroTotal(s.handlers, Alive);
    e := if s.serve.Draining? then AdvanceDrain else AdvanceServe;
  }

  lemma {:induction false} Nearer(s: State) returns (e: Event)
    requires Inv(s) && !s.drainer.Drained?
    ensures Left(Step(s, e)) < Left(s)
  {
    hide Inv, Left, Step;
    if !s.acceptor.Ended? {
      e := AcceptNearer(s);
    } else if c :| 0 <= c < |s.phases| && !s.phases[c].Over? {
      e := ConnNearer(s, c);
    } else if h :| 0 <= h < |s.handlers| && !s.handlers[h].Done? {
      HandlerNearer(s, h);
      e := HandlerDone(h);
    } else {
      e := EndNearer(s);
    }
  }

  lemma {:induction false} RunSnoc(es: seq<Event>, e: Event)
    ensures Run(es + [e]) == Step(Run(es), e)
  {
    assert (es + [e])[..|es|] == es;
  }

  /** From every state of every run the drain can be completed. */
  lemma {:induction false} DrainReachable(es: seq<Event>) returns (fs: seq<Event>)
    ensures Run(es + fs).drainer.Drained?
    decreases Left(Run(es))
  {
    hide Run, Left, Step;
    if Run(es).drainer.Drained? {
      fs := [];
      assert es + fs == es;
    } else {
      RunKeeps(es);
      var e := Nearer(Run(es));
      RunSnoc(es, e);
      var rest := DrainReachable(es + [e]);
      fs := [e] + rest;
      assert es + fs == es + [e] + rest;
    }
  }

  /** Once the listener is closed and no accepted connection is in hand, no connection is added any more. */
  lemma {:induction false} NothingAcceptedAfterClose(es: seq<Event>, fs: seq<Event>)
    requires !Run(es).serve.Serving? && !Run(es).acceptor.Accepted?
    ensures var t := Run(es + fs); !t.serve.Serving? && !t.acceptor.Accepted? && |t.phases| == |Run(es).phases|
    decreases |fs|
  {
    if fs == [] {
      assert es + fs == es;
    } else {
      var n := |fs| - 1;
      NothingAcceptedAfterClose(es, fs[..n]);
      assert es + fs == es + fs[..n] + [fs[n]];
      RunSnoc(es + fs[..n], fs[n]);
    }
  }
}
