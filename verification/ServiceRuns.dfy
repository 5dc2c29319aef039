/** Every run of the daemon with its clients: calls return their own results, and a drain leaves none owed. */
module ServiceRuns {
  import opened JsonRpc
  import opened Service
  import SR = ServerRuns
  import PR = ProtocolRuns
  import WR = DaemonRuns

  // ---------- every step keeps it ----------

  /** A step of the daemon is one step of a connection, or none of it. */
  lemma {:induction false} ConnSteps(cfg: S.Config, w: W.State, e: W.Event, c: nat) returns (move: S.Event)
    requires c < |w.conns|
    ensures var t := W.Step(cfg, w, e);
            && c < |t.conns|
            && (t.conns[c] == w.conns[c] || t.conns[c] == S.Step(cfg, w.conns[c], move))
            && (move.Arrive? ==> e == W.AtConn(c, move))
  {
    hide S.Step, W.D.Step;
    move := match e
      case AtConn(i, x) => if i == c then x else S.Read
      case StartHandler(_) => S.Admit
      case EndHandler(h) => if h < |w.owner| then S.Release(w.owner[h].1) else S.Read
      case _ => S.Read;
  }

  /** A connection that arrives is new. */
  lemma {:induction false} ConnsGrow(cfg: S.Config, w: W.State, e: W.Event)
    ensures var t := W.Step(cfg, w, e);
            && |w.conns| <= |t.conns| <= |w.conns| + 1
            && (|t.conns| > |w.conns| ==> t.conns[|w.conns|] == S.NEW)
  {
    hide S.Step, W.D.Step;
  }

  lemma {:induction false} NewLink(cfg: S.Config)
    ensures P.Inv(cfg, P.System(P.C.FRESH, S.NEW))
  {
    hide P.Inv;
    PR.RunKeeps(cfg, []);
    assert P.Run(cfg, []) == P.System(P.C.FRESH, S.NEW);
  }

  /** The daemon's side moves; a line arrives on a connection only from its own client. */
  lemma {:induction false} KeepsDaemon(cfg: S.Config, s: State, e: W.Event)
    requires Inv(cfg, s)
    requires e.AtConn? && e.move.Arrive? ==>
               && e.c < |s.clients| && |s.daemon.conns[e.c].inbox| < |s.clients[e.c].outbox|
               && e.move.line == s.clients[e.c].outbox[|s.daemon.conns[e.c].inbox|]
    ensures Inv(cfg, DoAtDaemon(cfg, s, e))
  {
    hide W.Inv, P.Inv, W.Step, S.Step;
    var t := DoAtDaemon(cfg, s, e);
    WR.StepKeeps(cfg, s.daemon, e);
    ConnsGrow(cfg, s.daemon, e);
    forall c | 0 <= c < |t.clients| ensures P.Inv(cfg, Link(t, c)) {
      if c < |s.clients| {
        var move := ConnSteps(cfg, s.daemon, e, c);
        assert P.Inv(cfg, Link(s, c));
        if t.daemon.conns[c] != s.daemon.conns[c] {
          PR.ServerStep(cfg, Link(s, c), move);
        }
      } else {
        NewLink(cfg);
      }
    }
  }

  lemma {:induction false} KeepsClient(cfg: S.Config, s: State, c: nat, e: C.ClientEvent)
    requires Inv(cfg, s) && c < |s.clients| && (e.Receive? ==> P.Possible(s.daemon.conns[c], e.line))
    ensures Inv(cfg, s.(clients := s.clients[c := C.Next(s.clients[c], e)]))
  {
    hide W.Inv, P.Inv, C.Next;
    var t := s.(clients := s.clients[c := C.Next(s.clients[c], e)]);
    forall i | 0 <= i < |t.clients| ensures P.Inv(cfg, Link(t, i)) {
      assert P.Inv(cfg, Link(s, i));
      if i == c { PR.ClientStep(cfg, Link(s, c), e); }
    }
  }

  lemma {:induction false} StepKeeps(cfg: S.Config, s: State, e: Event)
    requires Inv(cfg, s)
    ensures Inv(cfg, Step(cfg, s, e))
  {
    hide P.Possible, P.Inv, W.Inv, C.Next, W.Step;
    match e
    case AtDaemon(step) => if !(step.AtConn? && step.move.Arrive?) { KeepsDaemon(cfg, s, step); }
    case AtClient(c, move) => if c < |s.clients| && !move.Receive? { KeepsClient(cfg, s, c, move); }
    case Uplink(c) =>
      if c < |s.clients| && |s.daemon.conns[c].inbox| < |s.clients[c].outbox| {
        KeepsDaemon(cfg, s, W.AtConn(c, S.Arrive(s.clients[c].outbox[|s.daemon.conns[c].inbox|])));
      }
    case Downlink(c, line) =>
      if c < |s.clients| && P.Possible(s.daemon.conns[c], line) { KeepsClient(cfg, s, c, C.Receive(line)); }
  }

  lemma {:induction false} RunKeeps(cfg: S.Config, es: seq<Event>)
    ensures Inv(cfg, Run(cfg, es))
  {
    if es == [] {
      hide W.Inv;
      WR.RunKeeps(cfg, []);
      assert W.Run(cfg, []) == W.NEW;
    } else {
      hide Inv, Step;
      RunKeeps(cfg, es[..|es| - 1]);
      StepKeeps(cfg, Run(cfg, es[..|es| - 1]), es[|es| - 1]);
    }
  }

  // ---------- calls and the drain ----------

  /**
   With any number of clients and connections, and with the daemon starting, serving or draining: a call
   that returns with a response returns the only response made to its own request on its own connection,
   computed from that call's method and params.
   */
  lemma {:induction false} EveryCallReturnsItsOwn(cfg: S.Config, es: seq<Event>, c: nat, i: nat, body: Body)
    requires c < |Run(cfg, es).clients| && i < |Run(cfg, es).clients[c].calls|
    requires Run(cfg, es).clients[c].calls[i].stage == C.Returned(C.Got(body))
    ensures c < |Run(cfg, es).daemon.conns|
    ensures var call := Run(cfg, es).clients[c].calls[i];
            exists k :: PR.AnsweredAt(cfg, Run(cfg, es).daemon.conns[c], call, body, k)
  {
    hide Run, W.Inv, P.Inv, PR.AnsweredAt;
    var s := Run(cfg, es);
    RunKeeps(cfg, es);
    assert P.Inv(cfg, Link(s, c));
    PR.GotIsRead(cfg, Link(s, c), i);
    PR.ReplyIsOwn(cfg, Link(s, c), i, body);
  }

  /** Line `k` of a connection's input is the request of one call of its client. */
  ghost predicate Asks(client: C.Client, conn: S.Conn, i: nat, k: nat) {
    i < |client.calls| && k < |conn.inbox| && client.calls[i].id > 0 && conn.inbox[k] == C.LineOf(client.calls[i])
  }

  lemma {:induction false} WhoAsked(cfg: S.Config, sys: P.System, k: nat) returns (i: nat)
    requires P.Inv(cfg, sys) && k < |sys.server.inbox|
    ensures Asks(sys.client, sys.server, i, k)
    ensures forall j: nat :: Asks(sys.client, sys.server, j, k) ==> j == i
  {
    hide S.Inv, C.CallsOk, C.ReaderOk, C.NotesOk;
    assert C.SentBy(sys.client, sys.client.outbox[k]);
    i :| 0 <= i < |sys.client.calls| && sys.client.calls[i].id > 0 && sys.client.outbox[k] == C.LineOf(sys.client.calls[i]);
    forall j: nat | Asks(sys.client, sys.server, j, k) ensures j == i {
      assert sys.client.calls[j].id == sys.client.calls[i].id;
    }
  }

  /**
   Once `done` is closed, every request the daemon started on any connection is that of exactly one call of
   the client there, and it has the one response due to it, or none if its result cannot be encoded.
   */
  lemma {:induction false} DrainedLeavesNoneOwed(cfg: S.Config, es: seq<Event>, c: nat, k: nat) returns (i: nat)
    requires Run(cfg, es).daemon.drain.drainer.Drained?
    requires c < |Run(cfg, es).daemon.conns| && k in Run(cfg, es).daemon.conns[c].started
    ensures c < |Run(cfg, es).clients|
    ensures var client, conn := Run(cfg, es).clients[c], Run(cfg, es).daemon.conns[c];
            && SR.Settled(cfg, conn, k)
            && Asks(client, conn, i, k) && forall j: nat :: Asks(client, conn, j, k) ==> j == i
  {
    hide Run, W.Inv, P.Inv, S.Inv, SR.Settled, Asks;
    var s := Run(cfg, es);
    RunKeeps(cfg, es);
    WR.Idle(cfg, s.daemon, c);
    SR.RanIsSettled(cfg, s.daemon.conns[c], k);
    assert P.Inv(cfg, Link(s, c));
    InRange(cfg, s.daemon.conns[c], k);
    i := WhoAsked(cfg, Link(s, c), k);
  }

  lemma {:induction false} InRange(cfg: S.Config, conn: S.Conn, k: nat)
    requires S.Inv(cfg, conn) && k in conn.started
    ensures k < |conn.inbox|
  {
  }
}
