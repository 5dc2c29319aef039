/** Every run of client and daemon together: calls return their own results. */
module ProtocolRuns {
  import opened Basics
  import opened JsonRpc
  import SR = ServerRuns
  import CR = ClientRuns
  import opened DaemonProtocol

  /** What the client has written and read, and what the daemon has answered, only grows. */
  lemma {:induction false} ClientGrows(c: C.Client, e: C.ClientEvent)
    ensures c.outbox <= C.Next(c, e).outbox
    ensures C.Next(c, e).inbox == if e.Receive? then c.inbox + [e.line] else c.inbox
  {
  }

  lemma {:induction false} ServerGrows(cfg: S.Config, s: S.Conn, e: S.Event)
    ensures s.responses <= S.Step(cfg, s, e).responses
    ensures S.Step(cfg, s, e).inbox == if e.Arrive? then s.inbox + [e.line] else s.inbox
  {
    hide S.Handle, S.KindOf, S.IdOf;
  }

  lemma {:induction false} PossibleGrows(s: S.Conn, t: S.Conn, line: Inbound)
    requires Possible(s, line) && s.responses <= t.responses
    ensures Possible(t, line)
  {
    if line.Reply? && line.id.Some? && line.id.value.Number? && line.id.value.n > 0 {
      var j :| 0 <= j < |s.responses| && s.responses[j].id == line.id.value && s.responses[j].body == line.body;
      assert t.responses[j] == s.responses[j];
    }
  }

  lemma {:induction false} ServerStep(cfg: S.Config, sys: System, e: S.Event)
    requires Inv(cfg, sys)
    requires e.Arrive? ==> |sys.server.inbox| < |sys.client.outbox| && e.line == sys.client.outbox[|sys.server.inbox|]
    ensures Inv(cfg, sys.(server := S.Step(cfg, sys.server, e)))
  {
    hide S.Inv, C.ClientInv, S.Step, Possible;
    var t := S.Step(cfg, sys.server, e);
    SR.StepKeeps(cfg, sys.server, e);
    ServerGrows(cfg, sys.server, e);
    forall k | 0 <= k < |sys.client.inbox| ensures Possible(t, sys.client.inbox[k]) {
      PossibleGrows(sys.server, t, sys.client.inbox[k]);
    }
  }

  lemma {:induction false} ClientStep(cfg: S.Config, sys: System, e: C.ClientEvent)
    requires Inv(cfg, sys) && (e.Receive? ==> Possible(sys.server, e.line))
    ensures Inv(cfg, sys.(client := C.Next(sys.client, e)))
  {
    hide S.Inv, C.ClientInv, C.Next, Possible;
    CR.NextKeeps(sys.client, e);
    ClientGrows(sys.client, e);
  }

  lemma {:induction false} StepKeeps(cfg: S.Config, sys: System, e: Event)
    requires Inv(cfg, sys)
    ensures Inv(cfg, Step(cfg, sys, e))
  {
    hide Inv, S.Step, C.Next, Possible;
    match e
    case AtClient(c) => if !c.Receive? { ClientStep(cfg, sys, c); }
    case AtServer(s) => if !s.Arrive? { ServerStep(cfg, sys, s); }
    case Uplink =>
      if |sys.server.inbox| < |sys.client.outbox| {
        ServerStep(cfg, sys, S.Arrive(sys.client.outbox[|sys.server.inbox|]));
      }
    case Downlink(line) => if Possible(sys.server, line) { ClientStep(cfg, sys, C.Receive(line)); }
  }

  lemma {:induction false} RunKeeps(cfg: S.Config, es: seq<Event>)
    ensures Inv(cfg, Run(cfg, es))
  {
    hide Step;
    if es != [] {
      RunKeeps(cfg, es[..|es| - 1]);
      StepKeeps(cfg, Run(cfg, es[..|es| - 1]), es[|es| - 1]);
    }
  }

  // ---------- calls return their own results ----------

  /**
   Line `k` of the daemon's input is this call's request, and `body` its one response: what the run of the
   handler that served that line has its caller told.
   */
  ghost predicate AnsweredAt(cfg: S.Config, server: S.Conn, call: C.Call, body: Body, k: nat) {
    && k < |server.inbox|
    && server.inbox[k] == Line.Message("2.0", Some(Number(call.id)), call.name, call.params)
    && SR.ExactlyOne(server, k, Number(call.id), body)
    && if call.name == "" then body == Failure(-32600)
       else k in server.turns && SR.Tells(cfg, call.name, call.params, server.turns[k], Some(body))
  }

  lemma {:induction false} ReplyIsOwn(cfg: S.Config, sys: System, i: nat, body: Body)
    requires Inv(cfg, sys) && i < |sys.client.calls| && sys.client.calls[i].id > 0
    requires C.Read(sys.client.inbox, sys.client.calls[i].id, body)
    ensures exists k :: AnsweredAt(cfg, sys.server, sys.client.calls[i], body, k)
  {
    hide C.CallsOk, C.ReaderOk, C.NotesOk, S.FlightsOk, S.Complete, S.StopOk, S.Respond, SR.Tells;
    var call := sys.client.calls[i];
    var m :| 0 <= m < |sys.client.inbox| && C.Answers(sys.client.inbox[m], call.id, body);
    assert Possible(sys.server, sys.client.inbox[m]);
    assert WasSent(sys.server, call.id, body);
    var j :| 0 <= j < |sys.server.responses| && sys.server.responses[j].id == Number(call.id) && sys.server.responses[j].body == body;
    var k := sys.server.responses[j].src;
    assert S.ResponseOk(cfg, sys.server, sys.server.responses[j]);
    OwnLine(sys, i, k);
    assert sys.server.responses[j] == S.Response(k, Number(call.id), body);
    if call.name != "" { SR.RespondTells(cfg, call.name, call.params, sys.server.turns[k]); }
    assert AnsweredAt(cfg, sys.server, call, body, k);
  }

  /** A line that carries a call's id is that call's request. */
  lemma {:induction false} OwnLine(sys: System, i: nat, k: nat)
    requires C.ClientInv(sys.client) && sys.server.inbox <= sys.client.outbox
    requires i < |sys.client.calls| && sys.client.calls[i].id > 0
    requires k < |sys.server.inbox| && S.IdOf(sys.server.inbox[k]) == Number(sys.client.calls[i].id)
    ensures sys.server.inbox[k] == C.LineOf(sys.client.calls[i])
  {
    hide C.CallsOk, C.ReaderOk, C.NotesOk;
    var line := sys.client.outbox[k];
    assert C.SentBy(sys.client, line);
    var o :| 0 <= o < |sys.client.calls| && sys.client.calls[o].id > 0 && line == C.LineOf(sys.client.calls[o]);
    assert sys.client.calls[o].id == sys.client.calls[i].id;
    assert o == i;
  }

  /**
   Under every interleaving of calls, handlers, cancellations, losses, repeats and closes, a call that
   returns with a response returns one the daemon made for that call's own request, computed from
   that call's method and params.
   */
  lemma {:induction false} CallReturnsOwnResult(cfg: S.Config, es: seq<Event>, i: nat, body: Body)
    requires i < |Run(cfg, es).client.calls| && Run(cfg, es).client.calls[i].stage == C.Returned(C.Got(body))
    ensures var sys := Run(cfg, es);
            var call := sys.client.calls[i];
            exists k :: AnsweredAt(cfg, sys.server, call, body, k)
  {
    hide Run, Inv, AnsweredAt;
    RunKeeps(cfg, es);
    GotIsRead(cfg, Run(cfg, es), i);
    ReplyIsOwn(cfg, Run(cfg, es), i, body);
  }

  lemma {:induction false} GotIsRead(cfg: S.Config, sys: System, i: nat)
    requires Inv(cfg, sys) && i < |sys.client.calls|
    requires sys.client.calls[i].stage.Returned? && sys.client.calls[i].stage.verdict.Got?
    ensures sys.client.calls[i].id > 0 && C.Read(sys.client.inbox, sys.client.calls[i].id, sys.client.calls[i].stage.verdict.body)
  {
    assert C.CallOk(sys.client, i);
  }

  lemma {:induction false} RunSnoc(cfg: S.Config, es: seq<Event>, e: Event)
    ensures Run(cfg, es + [e]) == Step(cfg, Run(cfg, es), e)
  {
    assert (es + [e])[..|es|] == es;
  }
}
