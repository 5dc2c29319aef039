/** No state of the daemon and its clients is a dead end: waiting calls can return, and new ones be made. */
module ServiceProgress {
  import opened Basics
  import opened JsonRpc
  import opened Service
  import H = ProtocolProgress
  import SR = ServerRuns
  import PR = ProtocolRuns
  import WR = DaemonRuns
  import VR = ServiceRuns

  // ---------- what every run keeps ----------

  /** On no connection has a request been passed over, and every call that waits has been written. */
  ghost predicate Underway(s: State) {
    && (forall c :: 0 <= c < |s.daemon.conns| ==> H.NoneSkipped(s.daemon.conns[c]))
    && (forall c, i: nat :: 0 <= c < |s.clients| ==> H.Written(s.clients[c], i))
  }

  lemma {:induction false} DaemonUnderway(cfg: S.Config, s: State, e: W.Event)
    requires Inv(cfg, s) && Underway(s)
    ensures Underway(DoAtDaemon(cfg, s, e))
  {
    hide W.Inv, W.Step, S.Step, S.Inv, C.ClientInv, P.WireOk, H.NoneSkipped, H.Written;
    var t := DoAtDaemon(cfg, s, e);
    VR.ConnsGrow(cfg, s.daemon, e);
    forall c | 0 <= c < |t.daemon.conns| ensures H.NoneSkipped(t.daemon.conns[c]) {
      if c < |s.daemon.conns| {
        var move := VR.ConnSteps(cfg, s.daemon, e, c);
        assert P.Inv(cfg, Link(s, c));
        H.SkipsNone(cfg, s.daemon.conns[c], move);
      } else {
        Fresh();
      }
    }
    forall c, i: nat | 0 <= c < |t.clients| ensures H.Written(t.clients[c], i) {
      if c >= |s.clients| { Fresh(); }
    }
  }

  lemma {:induction false} Fresh()
    ensures H.NoneSkipped(S.NEW) && forall i: nat :: H.Written(C.FRESH, i)
  {
  }

  lemma {:induction false} StaysUnderway(cfg: S.Config, s: State, e: Event)
    requires Inv(cfg, s) && Underway(s)
    ensures Underway(Step(cfg, s, e))
  {
    hide Inv, DoAtDaemon, C.Next, P.Possible, H.Written, H.NoneSkipped;
    var t := Step(cfg, s, e);
    if e.AtDaemon? {
      DaemonUnderway(cfg, s, e.step);
    } else if e.Uplink? && t != s {
      DaemonUnderway(cfg, s, W.AtConn(e.c, S.Arrive(s.clients[e.c].outbox[|s.daemon.conns[e.c].inbox|])));
    } else if t != s {
      forall c, i: nat | 0 <= c < |t.clients| ensures H.Written(t.clients[c], i) {
        if c == e.c { H.StaysWritten(s.clients[c], if e.AtClient? then e.move else C.Receive(e.line), i); }
      }
    }
  }

  lemma {:induction false} AlwaysUnderway(cfg: S.Config, es: seq<Event>)
    ensures Underway(Run(cfg, es))
  {
    if es != [] {
      hide Step, Inv, Underway;
      AlwaysUnderway(cfg, es[..|es| - 1]);
      VR.RunKeeps(cfg, es[..|es| - 1]);
      StaysUnderway(cfg, Run(cfg, es[..|es| - 1]), es[|es| - 1]);
    }
  }

  lemma {:induction false} RunSnoc(cfg: S.Config, es: seq<Event>, e: Event)
    ensures Run(cfg, es + [e]) == Step(cfg, Run(cfg, es), e)
  {
    assert (es + [e])[..|es|] == es;
  }

  // ---------- one connection of the daemon goes on ----------

  /** The connection's loop is running and reads. */
  predicate Open(w: W.State, c: nat) {
    c < |w.conns| && W.D.PhaseOf(w.drain, c).Looping? && !w.conns[c].reader.Ended?
  }

  /** Whatever a connection can do alone it can do in the daemon. */
  lemma {:induction false} DaemonCan(cfg: S.Config, w: W.State, c: nat, e: S.Event) returns (x: W.Event)
    requires W.Inv(cfg, w) && c < |w.conns| && W.D.PhaseOf(w.drain, c).Looping? && !e.Arrive?
    ensures !(x.AtConn? && x.move.Arrive?)
    ensures var t := W.Step(cfg, w, x);
            && |t.conns| == |w.conns| && t.conns[c] == S.Step(cfg, w.conns[c], e) && W.D.PhaseOf(t.drain, c).Looping?
  {
    hide W.D.Inv, S.Inv;
    var conn := w.conns[c];
    if e.Admit? {
      x := W.StartHandler(c);
      WR.Counts(w.drain, c);
    } else if e.Release? && S.At(conn, e.k, S.Done) {
      var h := HandlerOf(cfg, w, c, e.k);
      x := W.EndHandler(h);
    } else {
      x := W.AtConn(c, e);
    }
  }

  lemma {:induction false} HandlerOf(cfg: S.Config, w: W.State, c: nat, k: nat) returns (h: nat)
    requires W.Inv(cfg, w) && c < |w.conns| && k in w.conns[c].flights
    ensures h < |w.owner| && h < |w.drain.handlers| && w.owner[h] == (c, k) && w.drain.handlers[h].Running?
  {
    assert W.ConnOk(cfg, w, c);
    SR.CoreFlights(cfg, w.conns[c]);
    SR.FlightFacts(cfg, w.conns[c], k);
    assert W.HasOwner(w, c, k);
    var n :| 0 <= n < |w.owner| && w.owner[n] == (c, k);
    h := n;
    assert W.OwnerOk(w, h);
  }

  lemma {:induction false} ServerCarriesOn(cfg: S.Config, es: seq<Event>, c: nat, fs: seq<S.Event>) returns (gs: seq<Event>)
    requires H.NoArrival(fs)
    requires var s := Run(cfg, es); c < |s.daemon.conns| && W.D.PhaseOf(s.daemon.drain, c).Looping?
    ensures var s, t := Run(cfg, es), Run(cfg, es + gs);
            && t.clients == s.clients && c < |t.daemon.conns| && W.D.PhaseOf(t.daemon.drain, c).Looping?
            && t.daemon.conns[c] == H.Serve(cfg, s.daemon.conns[c], fs)
    decreases |fs|
  {
    hide Run, S.Step, W.Step, W.Inv, P.Inv, W.D.PhaseOf;
    if fs == [] {
      gs := [];
      assert es + gs == es;
    } else {
      VR.RunKeeps(cfg, es);
      var x := DaemonCan(cfg, Run(cfg, es).daemon, c, fs[0]);
      RunSnoc(cfg, es, AtDaemon(x));
      var rest := ServerCarriesOn(cfg, es + [AtDaemon(x)], c, fs[1..]);
      gs := [AtDaemon(x)] + rest;
      assert es + gs == es + [AtDaemon(x)] + rest;
    }
  }

  /** What a client has written can all reach the daemon. */
  lemma {:induction false} LinesArrive(cfg: S.Config, es: seq<Event>, c: nat) returns (fs: seq<Event>)
    requires var s := Run(cfg, es);
             && c < |s.clients| && c < |s.daemon.conns| && |s.daemon.conns[c].inbox| <= |s.clients[c].outbox|
             && Inv(cfg, s) && W.D.PhaseOf(s.daemon.drain, c).Looping?
    ensures var s, t := Run(cfg, es), Run(cfg, es + fs);
            && t.clients == s.clients && c < |t.daemon.conns| && W.D.PhaseOf(t.daemon.drain, c).Looping?
            && t.daemon.conns[c] == s.daemon.conns[c].(inbox := s.clients[c].outbox)
    decreases |Run(cfg, es).clients[c].outbox| - |Run(cfg, es).daemon.conns[c].inbox|
  {
    hide Run, W.Inv, P.Inv;
    var s := Run(cfg, es);
    var outbox, inbox := s.clients[c].outbox, s.daemon.conns[c].inbox;
    assert inbox <= outbox by { Arrived(cfg, s, c); }
    fs := [];
    assert es + fs == es;
    if |inbox| < |outbox| {
      RunSnoc(cfg, es, Uplink(c));
      VR.RunKeeps(cfg, es + [Uplink(c)]);
      var rest := LinesArrive(cfg, es + [Uplink(c)], c);
      fs := [Uplink(c)] + rest;
      assert es + fs == es + [Uplink(c)] + rest;
    }
  }

  lemma {:induction false} Arrived(cfg: S.Config, s: State, c: nat)
    requires Inv(cfg, s) && c < |s.clients|
    ensures s.daemon.conns[c].inbox <= s.clients[c].outbox
  {
    hide W.Inv, S.Inv, C.ClientInv;
    assert P.Inv(cfg, Link(s, c));
  }

  lemma {:induction false} ClientCarriesOn(cfg: S.Config, es: seq<Event>, c: nat, fs: seq<C.ClientEvent>) returns (gs: seq<Event>)
    requires H.NoReceipt(fs) && c < |Run(cfg, es).clients|
    ensures var s, t := Run(cfg, es), Run(cfg, es + gs);
            t.daemon == s.daemon && t.clients == s.clients[c := H.Proceed(s.clients[c], fs)]
    decreases |fs|
  {
    hide Run, C.Next;
    if fs == [] {
      gs := [];
      assert es + gs == es;
    } else {
      var e := AtClient(c, fs[0]);
      RunSnoc(cfg, es, e);
      var rest := ClientCarriesOn(cfg, es + [e], c, fs[1..]);
      gs := [e] + rest;
      assert es + gs == es + [e] + rest;
    }
  }

  // ---------- waiting calls ----------

  predicate Waits(s: State, c: nat, i: nat) {
    && c < |s.clients| && i < |s.clients[c].calls| && s.clients[c].calls[i].stage.Waiting? && !s.clients[c].reader.Stopped?
  }

  /** The request of a waiting call can reach the daemon and be handled, in a run of the handler of our choice if it has had none. */
  lemma {:induction false} RequestHandled(cfg: S.Config, es: seq<Event>, c: nat, i: nat, turn: nat) returns (fs: seq<Event>, k: nat)
    requires Waits(Run(cfg, es), c, i) && Open(Run(cfg, es).daemon, c)
    ensures var s, t := Run(cfg, es), Run(cfg, es + fs);
            && t.clients == s.clients && c < |t.daemon.conns| && t.daemon.conns[c].inbox == s.clients[c].outbox
            && var call := s.clients[c].calls[i];
            && H.Handled(t.daemon.conns[c], call, k)
            && (call.name != "" ==>
                  t.daemon.conns[c].turns[k] == if k in s.daemon.conns[c].turns then s.daemon.conns[c].turns[k] else turn)
  {
    hide Run, S.Step, S.Inv, C.ClientInv, W.Inv, P.Inv;
    var s := Run(cfg, es);
    var call := s.clients[c].calls[i];
    AlwaysUnderway(cfg, es);
    VR.RunKeeps(cfg, es);
    assert H.Written(s.clients[c], i);
    var index :| 0 <= index < |s.clients[c].outbox| && s.clients[c].outbox[index] == C.LineOf(call);
    k := index;
    Arrived(cfg, s, c);
    var up := LinesArrive(cfg, es, c);
    AlwaysUnderway(cfg, es + up);
    VR.RunKeeps(cfg, es + up);
    var t := Run(cfg, es + up);
    var conn := t.daemon.conns[c];
    assert S.Inv(cfg, conn) by { ServerInOrder(cfg, t, c); }
    assert call.name != "" ==> S.KindOf(conn.inbox[k]).Request?;
    var gs := H.LineServed(cfg, conn, k, turn);
    var down := ServerCarriesOn(cfg, es + up, c, gs);
    fs := up + down;
    assert es + fs == es + up + down;
    if call.name != "" { H.EndedHasRun(cfg, H.Serve(cfg, conn, gs), k); }
  }

  lemma {:induction false} ServerInOrder(cfg: S.Config, s: State, c: nat)
    requires Inv(cfg, s) && c < |s.clients|
    ensures S.Inv(cfg, s.daemon.conns[c]) && C.ClientInv(s.clients[c])
  {
    hide W.Inv, S.Inv, C.ClientInv;
    assert P.Inv(cfg, Link(s, c));
  }

  /** An answer that was sent can reach the call that waits for it. */
  lemma {:induction false} AnswerArrives(cfg: S.Config, es: seq<Event>, c: nat, i: nat, body: Body) returns (fs: seq<Event>)
    requires Waits(Run(cfg, es), c, i) && c < |Run(cfg, es).daemon.conns|
    requires P.WasSent(Run(cfg, es).daemon.conns[c], Run(cfg, es).clients[c].calls[i].id, body)
    ensures var s, t := Run(cfg, es), Run(cfg, es + fs);
            && t.daemon == s.daemon && c < |t.clients| && i < |t.clients[c].calls|
            && t.clients[c].calls[i].stage.Returned? && t.clients[c].calls[i].stage.verdict.Got?
            && C.LineOf(t.clients[c].calls[i]) == C.LineOf(s.clients[c].calls[i])
  {
    hide Run, C.ClientInv, S.Inv, W.Inv, P.Inv, P.WasSent;
    var client := Run(cfg, es).clients[c];
    var line := Reply(Some(Number(client.calls[i].id)), body);
    var e := Downlink(c, line);
    VR.RunKeeps(cfg, es);
    ServerInOrder(cfg, Run(cfg, es), c);
    RunSnoc(cfg, es, e);
    assert C.Next(client, C.Receive(line)) == client.(inbox := client.inbox + [line]);
    hide C.Next;
    VR.RunKeeps(cfg, es + [e]);
    var d := Run(cfg, es + [e]).clients[c];
    ServerInOrder(cfg, Run(cfg, es + [e]), c);
    H.ReadSoFar(client);
    assert H.Unread(d, d.calls[i].id, |client.inbox|);
    var gs := H.AnswerTaken(d, i);
    var rest := ClientCarriesOn(cfg, es + [e], c, gs);
    fs := [e] + rest;
    assert es + fs == es + [e] + rest;
  }

  lemma {:induction false} ReturnsOnceHandled(cfg: S.Config, es: seq<Event>, c: nat, i: nat, turn: nat) returns (fs: seq<Event>, k: nat)
    requires var s := Run(cfg, es);
             && Waits(s, c, i) && Open(s.daemon, c)
             && var call := s.clients[c].calls[i];
                forall t: nat :: t == turn || t in s.daemon.conns[c].turns.Values ==>
                  cfg.handler(call.name, call.params, t) != S.Returned(S.Unencodable)
    ensures var s, t := Run(cfg, es), Run(cfg, es + fs);
            && c < |t.daemon.conns| && t.daemon.conns[c].inbox == s.clients[c].outbox
            && H.Handled(t.daemon.conns[c], s.clients[c].calls[i], k)
            && (s.clients[c].calls[i].name != "" && k !in s.daemon.conns[c].turns ==> t.daemon.conns[c].turns[k] == turn)
            && c < |t.clients| && i < |t.clients[c].calls|
            && t.clients[c].calls[i].stage.Returned? && t.clients[c].calls[i].stage.verdict.Got?
            && C.LineOf(t.clients[c].calls[i]) == C.LineOf(s.clients[c].calls[i])
  {
    hide Run, S.Inv, C.ClientInv, W.Inv, P.Inv;
    var s := Run(cfg, es);
    var up, line := RequestHandled(cfg, es, c, i, turn);
    k := line;
    var conn := Run(cfg, es + up).daemon.conns[c];
    VR.RunKeeps(cfg, es + up);
    ServerInOrder(cfg, Run(cfg, es + up), c);
    var turns := s.daemon.conns[c].turns;
    assert k in turns ==> turns[k] in turns.Values;
    var body := H.HandledIsAnswered(cfg, conn, s.clients[c].calls[i], k);
    var down := AnswerArrives(cfg, es + up, c, i, body);
    fs := up + down;
    assert es + fs == es + up + down;
  }

  /**
   No state of any run is a dead end for a call that waits: as long as its connection's loop runs and both
   ends read, and what the method's handler comes to can be encoded, the call can still return with a
   response, whatever the daemon and the other clients are doing and however full its slots, the wire and
   the client's channels are.
   */
  lemma {:induction false} CallCanStillReturn(cfg: S.Config, es: seq<Event>, c: nat, i: nat) returns (fs: seq<Event>)
    requires var s := Run(cfg, es);
             && Waits(s, c, i) && Open(s.daemon, c)
             && var call := s.clients[c].calls[i];
                forall t: nat :: cfg.handler(call.name, call.params, t) != S.Returned(S.Unencodable)
    ensures var t := Run(cfg, es + fs);
            && c < |t.clients| && i < |t.clients[c].calls|
            && t.clients[c].calls[i].stage.Returned? && t.clients[c].calls[i].stage.verdict.Got?
  {
    hide Run;
    var k;
    fs, k := ReturnsOnceHandled(cfg, es, c, i, 0);
  }

  // ---------- new connections and calls ----------

  /** The accept loop is running. */
  predicate Accepts(w: W.State) {
    w.drain.serve.Serving? && !w.drain.acceptor.Ended?
  }

  /** A step of the accept loop as the daemon makes it. */
  lemma {:induction false} AcceptorMoves(cfg: S.Config, s: State, e: W.D.Event)
    requires e.Accept? || e.Reject? || e.Map? || e.CountConn? || e.SpawnConn?
    ensures var t := Step(cfg, s, AtDaemon(W.Around(e)));
            && t.daemon.drain == W.D.Step(s.daemon.drain, e)
            && (if |t.daemon.drain.phases| > |s.daemon.drain.phases|
                then t.clients == s.clients + [C.FRESH] && t.daemon.conns == s.daemon.conns + [S.NEW]
                else t.clients == s.clients && t.daemon.conns == s.daemon.conns)
  {
    hide W.D.Step;
  }

  /** The accept loop can come back to its accept without a new connection. */
  lemma {:induction false} BackToAccept(cfg: S.Config, es: seq<Event>) returns (fs: seq<Event>)
    requires Accepts(Run(cfg, es).daemon)
    ensures var s, t := Run(cfg, es), Run(cfg, es + fs);
            && t.daemon.drain.acceptor.Accepting? && t.daemon.drain.serve.Serving?
            && |t.clients| == |s.clients| && |t.daemon.drain.phases| == |s.daemon.drain.phases|
    decreases var d := Run(cfg, es).daemon.drain;
              if d.acceptor.Accepting? then 0
              else if d.acceptor.Adding? && W.D.PhaseOf(d, d.acceptor.c).Mapped? then 2 else 1
  {
    hide Run, P.Inv, W.Linked, W.D.GroupsOk, W.D.OrderOk;
    var d := Run(cfg, es).daemon.drain;
    VR.RunKeeps(cfg, es);
    if d.acceptor.Accepting? {
      fs := [];
      assert es + fs == es;
    } else {
      var x := if d.acceptor.Accepted? then W.D.Reject
               else if W.D.PhaseOf(d, d.acceptor.c).Mapped? then W.D.CountConn else W.D.SpawnConn;
      AcceptorMoves(cfg, Run(cfg, es), x);
      RunSnoc(cfg, es, AtDaemon(W.Around(x)));
      var rest := BackToAccept(cfg, es + [AtDaemon(W.Around(x))]);
      fs := [AtDaemon(W.Around(x))] + rest;
      assert es + fs == es + [AtDaemon(W.Around(x))] + rest;
    }
  }

  /** While the accept loop runs one more client can connect, and its connection's loop runs. */
  lemma {:induction false} ClientCanConnect(cfg: S.Config, es: seq<Event>) returns (fs: seq<Event>)
    requires Accepts(Run(cfg, es).daemon)
    ensures var c, t := |Run(cfg, es).clients|, Run(cfg, es + fs);
            && |t.clients| == c + 1 && t.clients[c] == C.FRESH
            && Open(t.daemon, c) && t.daemon.conns[c] == S.NEW
  {
    hide Run, P.Inv, W.Inv;
    var back := BackToAccept(cfg, es);
    var e0 := es + back;
    VR.RunKeeps(cfg, e0);
    SameCount(cfg, Run(cfg, e0));
    var e1, e2, e3 := e0 + [Accepting()], e0 + [Accepting()] + [Mapping()], e0 + [Accepting()] + [Mapping()] + [Counting()];
    AcceptorMoves(cfg, Run(cfg, e0), W.D.Accept);
    RunSnoc(cfg, e0, Accepting());
    AcceptorMoves(cfg, Run(cfg, e1), W.D.Map);
    RunSnoc(cfg, e1, Mapping());
    AcceptorMoves(cfg, Run(cfg, e2), W.D.CountConn);
    RunSnoc(cfg, e2, Counting());
    AcceptorMoves(cfg, Run(cfg, e3), W.D.SpawnConn);
    RunSnoc(cfg, e3, Spawning());
    fs := back + [Accepting()] + [Mapping()] + [Counting()] + [Spawning()];
    assert es + fs == e3 + [Spawning()];
  }

  function Accepting(): Event { AtDaemon(W.Around(W.D.Accept)) }

  function Mapping(): Event { AtDaemon(W.Around(W.D.Map)) }

  function Counting(): Event { AtDaemon(W.Around(W.D.CountConn)) }

  function Spawning(): Event { AtDaemon(W.Around(W.D.SpawnConn)) }

  lemma {:induction false} SameCount(cfg: S.Config, s: State)
    requires Inv(cfg, s)
    ensures |s.clients| == |s.daemon.conns| == |s.daemon.drain.phases|
  {
  }

  /** A fresh client's first call, up to the line it sends. */
  lemma {:induction false} FirstCall(name: string, params: string) returns (fs: seq<C.ClientEvent>)
    ensures H.NoReceipt(fs)
    ensures var client := H.Proceed(C.FRESH, fs);
            && client.calls == [C.Call(name, params, 1, C.Waiting, None)] && client.reader.Idle?
            && client.outbox == [Line.Message("2.0", Some(Number(1)), name, params)]
  {
    fs := [C.Begin(name, params), C.Register(0), C.Send(0, true)];
    var a := C.Next(C.FRESH, C.Begin(name, params));
    assert a.calls == [C.Call(name, params, 0, C.Checked, None)];
    var b := C.Next(a, C.Register(0));
    assert b.calls == [C.Call(name, params, 1, C.Registered, None)];
    assert fs[1..] == [C.Register(0), C.Send(0, true)] && fs[1..][1..] == [C.Send(0, true)] && fs[1..][1..][1..] == [];
    assert H.Proceed(b, [C.Send(0, true)]) == C.Next(b, C.Send(0, true));
    assert H.Proceed(a, fs[1..]) == H.Proceed(b, [C.Send(0, true)]);
  }

  /**
   From every state of every run in which the accept loop runs, whatever else is going on, a new client can
   connect, and its call of any registered method return any text that the method's handler returns.
   */
  lemma {:induction false} NewCallCanSucceed(cfg: S.Config, es: seq<Event>, name: string, params: string, turn: nat, json: string)
    returns (fs: seq<Event>)
    requires Accepts(Run(cfg, es).daemon)
    requires name in cfg.methods && name != "" && name != S.STATUS && name != S.SHUTDOWN
    requires cfg.handler(name, params, turn) == S.Returned(S.Text(json))
    ensures var c, t := |Run(cfg, es).clients|, Run(cfg, es + fs);
            && c < |t.clients| && |t.clients[c].calls| > 0
            && var call := t.clients[c].calls[0];
               (call.name, call.params, call.stage) == (name, params, C.Returned(C.Got(Result(json))))
  {
    hide Run, S.KindOf, C.Next;
    var c := |Run(cfg, es).clients|;
    var up := ClientCanConnect(cfg, es);
    var gs := FirstCall(name, params);
    var call := ClientCarriesOn(cfg, es + up, c, gs);
    var rest, k := ReturnsOnceHandled(cfg, es + up + call, c, 0, turn);
    fs := up + call + rest;
    assert es + fs == es + up + call + rest;
    var t := Run(cfg, es + fs);
    var body := t.clients[c].calls[0].stage.verdict.body;
    VR.EveryCallReturnsItsOwn(cfg, es + fs, c, 0, body);
    var n :| PR.AnsweredAt(cfg, t.daemon.conns[c], t.clients[c].calls[0], body, n);
    assert n == 0 && k == 0;
    assert SR.Tells(cfg, name, params, turn, Some(body));
  }
}
