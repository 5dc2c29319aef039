/**
 The daemon with a client on every connection: internal/daemonclient/client.go against the whole of
 internal/daemon/server.go, accept loop and drain included. Each connection carries requests in the
 order written; its replies may be lost, repeated or overtaken, and other lines may be mixed in.
 */
module Service {
  import opened JsonRpc
  import S = DaemonServer
  import C = DaemonClient
  import P = DaemonProtocol
  import W = Daemon

  /** Client number `c` is at the other end of connection number `c`. */
  datatype State = State(daemon: W.State, clients: seq<C.Client>)

  datatype Event =
    | AtDaemon(step: W.Event)
    | AtClient(c: nat, move: C.ClientEvent)
    | Uplink(c: nat)
    | Downlink(c: nat, line: Inbound)

  /** The two ends of a connection. */
  function Link(s: State, c: nat): P.System
    requires c < |s.clients| && c < |s.daemon.conns|
  {
    P.System(s.clients[c], s.daemon.conns[c])
  }

  /** A step of the daemon, which may be the arrival of a new connection. */
  function DoAtDaemon(cfg: S.Config, s: State, e: W.Event): State {
    var daemon := W.Step(cfg, s.daemon, e);
    State(daemon, if |daemon.conns| > |s.daemon.conns| then s.clients + [C.FRESH] else s.clients)
  }

  ghost function Step(cfg: S.Config, s: State, e: Event): State {
    match e
    case AtDaemon(step) => if step.AtConn? && step.move.Arrive? then s else DoAtDaemon(cfg, s, step)
    case AtClient(c, move) =>
      if c < |s.clients| && !move.Receive? then s.(clients := s.clients[c := C.Next(s.clients[c], move)]) else s
    case Uplink(c) =>
      if c < |s.clients| && c < |s.daemon.conns| && |s.daemon.conns[c].inbox| < |s.clients[c].outbox| then
        DoAtDaemon(cfg, s, W.AtConn(c, S.Arrive(s.clients[c].outbox[|s.daemon.conns[c].inbox|])))
      else s
    case Downlink(c, line) =>
      if c < |s.clients| && c < |s.daemon.conns| && P.Possible(s.daemon.conns[c], line) then
        s.(clients := s.clients[c := C.Next(s.clients[c], C.Receive(line))])
      else s
  }

  ghost function Run(cfg: S.Config, es: seq<Event>): State {
    if es == [] then State(W.NEW, []) else Step(cfg, Run(cfg, es[..|es| - 1]), es[|es| - 1])
  }

  /** The daemon is in order, and so is every connection with both its ends. */
  ghost predicate Inv(cfg: S.Config, s: State) {
    && W.Inv(cfg, s.daemon)
    && |s.clients| == |s.daemon.conns|
    && forall c :: 0 <= c < |s.clients| ==> P.Inv(cfg, Link(s, c))
  }
}
