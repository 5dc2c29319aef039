/**
 A client and the daemon's side of its connection together: internal/daemonclient/client.go against
 internal/daemon/server.go. Requests arrive at the daemon in the order written; replies may be lost,
 repeated or overtaken, and null-id replies, notifications and junk may be mixed in.
 */
module DaemonProtocol {
  import opened JsonRpc
  import S = DaemonServer
  import C = DaemonClient

  datatype System = System(client: C.Client, server: S.Conn)

  datatype Event =
    | AtClient(c: C.ClientEvent)
    | AtServer(s: S.Event)
    | Uplink
    | Downlink(line: Inbound)

  /** The daemon has written this response. */
  ghost predicate WasSent(server: S.Conn, n: nat, body: Body) {
    exists j :: 0 <= j < |server.responses| && server.responses[j].id == Number(n) && server.responses[j].body == body
  }

  /** A reply with a positive number for an id is one the daemon wrote; other lines are free. */
  ghost predicate Possible(server: S.Conn, line: Inbound) {
    line.Reply? && line.id.Some? && line.id.value.Number? && line.id.value.n > 0 ==>
      WasSent(server, line.id.value.n, line.body)
  }

  ghost function Step(cfg: S.Config, sys: System, e: Event): System {
    match e
    case AtClient(c) => if c.Receive? then sys else sys.(client := C.Next(sys.client, c))
    case AtServer(s) => if s.Arrive? then sys else sys.(server := S.Step(cfg, sys.server, s))
    case Uplink =>
      var k := |sys.server.inbox|;
      if k < |sys.client.outbox| then sys.(server := S.Step(cfg, sys.server, S.Arrive(sys.client.outbox[k]))) else sys
    case Downlink(line) =>
      if Possible(sys.server, line) then sys.(client := C.Next(sys.client, C.Receive(line))) else sys
  }

  ghost function Run(cfg: S.Config, es: seq<Event>): System {
    if es == [] then System(C.FRESH, S.NEW) else Step(cfg, Run(cfg, es[..|es| - 1]), es[|es| - 1])
  }

  // ---------- the invariant ----------

  ghost predicate WireOk(sys: System) {
    && sys.server.inbox <= sys.client.outbox
    && forall k :: 0 <= k < |sys.client.inbox| ==> Possible(sys.server, sys.client.inbox[k])
  }

  ghost predicate Inv(cfg: S.Config, sys: System) {
    C.ClientInv(sys.client) && S.Inv(cfg, sys.server) && WireOk(sys)
  }
}
