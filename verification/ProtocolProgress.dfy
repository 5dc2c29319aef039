/** What either end of a connection can still do from any state: serve a line it has, take an answer that comes. */
module ProtocolProgress {
  import opened Basics
  import opened JsonRpc
  import opened DaemonProtocol
  import CR = ClientRuns
  import SR = ServerRuns

  // ---------- the daemon's side ----------

  function Serve(cfg: S.Config, c: S.Conn, fs: seq<S.Event>): S.Conn
    decreases |fs|
  {
    if fs == [] then c else Serve(cfg, S.Step(cfg, c, fs[0]), fs[1..])
  }

  lemma {:induction false} ServeOne(cfg: S.Config, c: S.Conn, e: S.Event)
    ensures Serve(cfg, c, [e]) == S.Step(cfg, c, e)
  {
    assert [e][1..] == [];
  }

  lemma {:induction false} ServeBoth(cfg: S.Config, c: S.Conn, fs: seq<S.Event>, gs: seq<S.Event>)
    ensures Serve(cfg, c, fs + gs) == Serve(cfg, Serve(cfg, c, fs), gs)
    decreases |fs|
  {
    hide S.Step;
    if fs == [] {
      assert fs + gs == gs;
    } else {
      ServeBoth(cfg, S.Step(cfg, c, fs[0]), fs[1..], gs);
      assert (fs + gs)[1..] == fs[1..] + gs;
    }
  }

  /** A reader that has not ended has passed over no request: each is started or waits for a slot. */
  ghost predicate NoneSkipped(c: S.Conn) {
    !c.reader.Ended? ==>
      forall k :: 0 <= k < c.pos && k < |c.inbox| && S.KindOf(c.inbox[k]).Request? ==> k in c.started || c.reader == S.Waiting(k)
  }

  lemma {:induction false} SkipsNone(cfg: S.Config, c: S.Conn, e: S.Event)
    requires S.Inv(cfg, c) && NoneSkipped(c)
    ensures NoneSkipped(S.Step(cfg, c, e))
  {
    hide S.ResponsesOk, S.Complete, S.StopOk, S.FlightOk, S.KindOf, S.Handle, S.IdOf;
    SR.CoreFlights(cfg, c);
    SR.ReaderFacts(cfg, c);
    hide S.Inv, S.FlightsOk;
    if e.Read? && c.reader.Reading? && c.pos < |c.inbox| {
      var d := S.Step(cfg, c, e);
      assert d.started == c.started && d.inbox == c.inbox && d.pos == c.pos + 1;
      assert S.KindOf(c.inbox[c.pos]).Request? ==> d.reader == S.Waiting(c.pos);
    }
  }

  /** What one connection keeps while it is served without new lines. */
  ghost predicate Served(cfg: S.Config, c: S.Conn, d: S.Conn) {
    S.Inv(cfg, d) && NoneSkipped(d) && d.inbox == c.inbox && c.turns.Keys <= d.turns.Keys && c.pos <= d.pos
    && forall k :: k in c.turns ==> d.turns[k] == c.turns[k]
  }

  predicate NoArrival(fs: seq<S.Event>) {
    forall j :: 0 <= j < |fs| ==> !fs[j].Arrive?
  }

  lemma {:induction false} OneServes(cfg: S.Config, c: S.Conn, e: S.Event)
    requires S.Inv(cfg, c) && NoneSkipped(c) && !e.Arrive?
    requires e.Invoke? && e.k in c.flights ==> !c.flights[e.k].Running? || e.k !in c.turns
    ensures Served(cfg, c, S.Step(cfg, c, e))
  {
    hide S.Inv, S.KindOf, S.Handle, S.IdOf, NoneSkipped;
    SR.StepKeeps(cfg, c, e);
    SkipsNone(cfg, c, e);
  }

  /** The next step of a handler under way. */
  function HandlerStep(f: S.Flight, k: nat, turn: nat): S.Event {
    match f
    case Running => S.Invoke(k, turn)
    case Encoding(_) => S.Encode(k)
    case Recovering => S.Recover(k)
    case Writing(_) => S.Write(k)
    case Done => S.Release(k)
  }

  lemma {:induction false} HandlerTouches(cfg: S.Config, c: S.Conn, k: nat, turn: nat)
    requires k in c.flights && S.At(c, k, c.flights[k]) && (c.flights[k].Running? <==> k !in c.turns)
    ensures var d := S.Step(cfg, c, HandlerStep(c.flights[k], k, turn));
            && d.reader == c.reader && d.pos == c.pos && d.started == c.started
            && d.flights.Keys == (if c.flights[k].Done? then c.flights.Keys - {k} else c.flights.Keys)
            && (k !in c.turns ==> k in d.turns && d.turns[k] == turn) && d.turns.Keys <= c.turns.Keys + {k}
  {
    hide S.Handle, S.IdOf;
  }

  lemma {:induction false} HandlerMoves(cfg: S.Config, c: S.Conn, k: nat, turn: nat)
    requires S.Inv(cfg, c) && NoneSkipped(c) && k in c.flights
    ensures var d := S.Step(cfg, c, HandlerStep(c.flights[k], k, turn));
            && Served(cfg, c, d) && d.reader == c.reader && d.pos == c.pos && d.started == c.started
            && (k in d.flights ==> d.flights.Keys == c.flights.Keys && SR.StepsLeft(d.flights[k]) < SR.StepsLeft(c.flights[k]))
            && (k !in d.flights ==> d.flights.Keys == c.flights.Keys - {k})
            && (k !in c.turns ==> k in d.turns && d.turns[k] == turn) && d.turns.Keys <= c.turns.Keys + {k}
  {
    hide S.Step, NoneSkipped, SR.StepsLeft, Served, S.ResponsesOk, S.Complete, S.StopOk;
    var e := HandlerStep(c.flights[k], k, turn);
    SR.CoreFlights(cfg, c);
    SR.FlightFacts(cfg, c, k);
    HandlerTouches(cfg, c, k, turn);
    hide S.Inv, S.FlightsOk, S.KindOf;
    SR.NextStep(cfg, c, e, k);
    OneServes(cfg, c, e);
  }

  /** A handler under way can be brought to its end. */
  lemma {:induction false} HandlerRuns(cfg: S.Config, c: S.Conn, k: nat, turn: nat) returns (fs: seq<S.Event>)
    requires S.Inv(cfg, c) && NoneSkipped(c) && k in c.flights
    ensures var d := Serve(cfg, c, fs);
            && Served(cfg, c, d) && d.reader == c.reader && d.pos == c.pos && d.started == c.started
            && d.flights.Keys == c.flights.Keys - {k}
            && (k !in c.turns ==> k in d.turns && d.turns[k] == turn) && d.turns.Keys <= c.turns.Keys + {k}
    ensures NoArrival(fs)
    decreases SR.StepsLeft(c.flights[k])
  {
    hide S.Inv, NoneSkipped, S.Step, SR.StepsLeft;
    var e := HandlerStep(c.flights[k], k, turn);
    HandlerMoves(cfg, c, k, turn);
    var d := S.Step(cfg, c, e);
    fs := [e];
    ServeOne(cfg, c, e);
    if k in d.flights {
      var rest := HandlerRuns(cfg, d, k, turn);
      fs := [e] + rest;
      assert fs[1..] == rest;
    }
  }

  lemma {:induction false} Admits(cfg: S.Config, c: S.Conn)
    requires S.Inv(cfg, c) && NoneSkipped(c) && c.reader.Waiting? && |c.flights| < 32
    ensures var d := S.Step(cfg, c, S.Admit);
            && Served(cfg, c, d) && d.reader.Reading? && d.pos == c.pos
            && c.started <= d.started && c.reader.line in d.started && d.turns.Keys <= c.turns.Keys + c.started
  {
    OneServes(cfg, c, S.Admit);
  }

  /** A reader that waits for a slot can get one. */
  lemma {:induction false} SlotComes(cfg: S.Config, c: S.Conn) returns (fs: seq<S.Event>)
    requires S.Inv(cfg, c) && NoneSkipped(c) && c.reader.Waiting?
    ensures var d := Serve(cfg, c, fs);
            && Served(cfg, c, d) && d.reader.Reading? && d.pos == c.pos
            && c.started <= d.started && c.reader.line in d.started && d.turns.Keys <= c.turns.Keys + c.started
    ensures NoArrival(fs)
  {
    hide S.Inv, NoneSkipped, S.Step;
    if |c.flights| < 32 {
      Admits(cfg, c);
      fs := [S.Admit];
      ServeOne(cfg, c, S.Admit);
    } else {
      var k := AtMost32(cfg, c);
      var gs := HandlerRuns(cfg, c, k, 0);
      var d := Serve(cfg, c, gs);
      assert |d.flights.Keys| == |c.flights.Keys| - 1;
      Admits(cfg, d);
      fs := gs + [S.Admit];
      ServeBoth(cfg, c, gs, [S.Admit]);
      ServeOne(cfg, d, S.Admit);
    }
  }

  lemma {:induction false} AtMost32(cfg: S.Config, c: S.Conn) returns (k: nat)
    requires S.Inv(cfg, c) && |c.flights| >= 32
    ensures |c.flights| == 32 && k in c.flights && k in c.started
  {
    assert c.flights.Keys != {};
    k :| k in c.flights;
  }

  lemma {:induction false} ReadMoves(cfg: S.Config, c: S.Conn)
    requires c.reader.Reading? && c.pos < |c.inbox|
    ensures var d := S.Step(cfg, c, S.Read);
            !d.reader.Ended? && d.pos == c.pos + 1 && d.started == c.started && d.turns == c.turns
  {
    hide S.IdOf, S.KindOf;
  }

  lemma {:induction false} Reads(cfg: S.Config, c: S.Conn)
    requires S.Inv(cfg, c) && NoneSkipped(c) && c.reader.Reading? && c.pos < |c.inbox|
    ensures var d := S.Step(cfg, c, S.Read);
            Served(cfg, c, d) && !d.reader.Ended? && d.pos == c.pos + 1 && d.started == c.started && d.turns == c.turns
  {
    hide S.Inv, NoneSkipped, S.Step;
    OneServes(cfg, c, S.Read);
    ReadMoves(cfg, c);
  }

  lemma {:induction false} NotRunYet(cfg: S.Config, c: S.Conn, k: nat)
    requires S.Inv(cfg, c)
    ensures (k !in c.started ==> k !in c.turns) && c.pos <= |c.inbox| && (k in c.started ==> k < c.pos)
  {
    SR.CoreFlights(cfg, c);
    SR.ReaderFacts(cfg, c);
  }

  /** A line the reader has not ended before is read, and if it is a request its handler runs to its end. */
  lemma {:induction false} LineServed(cfg: S.Config, c: S.Conn, k: nat, turn: nat) returns (fs: seq<S.Event>)
    requires S.Inv(cfg, c) && NoneSkipped(c) && !c.reader.Ended? && k < |c.inbox|
    ensures var d := Serve(cfg, c, fs);
            && Served(cfg, c, d) && k < d.pos
            && (S.KindOf(c.inbox[k]).Request? ==>
                  k in d.started && k !in d.flights && (k !in c.turns ==> k in d.turns && d.turns[k] == turn))
    ensures NoArrival(fs)
    decreases |c.inbox| - c.pos, if c.reader.Waiting? then 1 else 0
  {
    hide S.Inv, S.Step, S.KindOf;
    NotRunYet(cfg, c, k);
    if k in c.started {
      if k in c.flights {
        fs := HandlerRuns(cfg, c, k, turn);
      } else {
        fs := [];
        EndedHasRun(cfg, c, k);
      }
    } else if k < c.pos && !S.KindOf(c.inbox[k]).Request? {
      fs := [];
    } else {
      hide NoneSkipped;
      var gs := if c.reader.Reading? then [S.Read] else [];
      if c.reader.Reading? {
        assert k >= c.pos by { MustWait(c, k); }
        Reads(cfg, c);
        ServeOne(cfg, c, S.Read);
      } else {
        gs := SlotComes(cfg, c);
      }
      var d := Serve(cfg, c, gs);
      var rest := LineServed(cfg, d, k, turn);
      fs := gs + rest;
      ServeBoth(cfg, c, gs, rest);
    }
  }

  lemma {:induction false} MustWait(c: S.Conn, k: nat)
    requires NoneSkipped(c) && c.reader.Reading? && k < |c.inbox| && k !in c.started
    ensures k < c.pos ==> !S.KindOf(c.inbox[k]).Request?
  {
  }

  lemma {:induction false} EndedHasRun(cfg: S.Config, c: S.Conn, k: nat)
    requires S.Inv(cfg, c) && k in c.started && k !in c.flights
    ensures k in c.turns
  {
    SR.CoreFlights(cfg, c);
  }

  // ---------- the client's side ----------

  function Proceed(c: C.Client, fs: seq<C.ClientEvent>): C.Client
    decreases |fs|
  {
    if fs == [] then c else Proceed(C.Next(c, fs[0]), fs[1..])
  }

  predicate NoReceipt(fs: seq<C.ClientEvent>) {
    forall j :: 0 <= j < |fs| ==> !fs[j].Receive?
  }

  /** An answer to the waiting call is on its way: in its channel, in the reader's hand or unread. */
  ghost predicate Coming(c: C.Client, i: nat) {
    && i < |c.calls| && c.calls[i].stage.Waiting?
    && (c.calls[i].buf.Some? || (c.reader.HasReply? && c.reader.call == i) || exists m :: Unread(c, c.calls[i].id, m))
  }

  ghost predicate Unread(c: C.Client, id: nat, m: int) {
    |c.callbackAt| <= m < |c.inbox| && c.inbox[m].Reply? && c.inbox[m].id == Some(Number(id))
  }

  /** What the reader does next. */
  function ReaderEvent(r: C.ReaderState): C.ClientEvent {
    match r
    case HasReply(_, _) => C.Deposit
    case HasNote(_) => C.Enqueue
    case _ => C.ReadLine
  }

  lemma {:induction false} StillComing(c: C.Client, i: nat)
    requires C.ClientInv(c) && !c.reader.Stopped? && Coming(c, i) && c.calls[i].buf.None?
    ensures var d := C.Next(c, ReaderEvent(c.reader));
            && !d.reader.Stopped? && Coming(d, i) && CR.Unread(d) < CR.Unread(c)
            && C.LineOf(d.calls[i]) == C.LineOf(c.calls[i])
  {
    hide C.NotesOk, C.OutboxOk, C.Read;
    assert C.CallOk(c, i);
    var d, id := C.Next(c, ReaderEvent(c.reader)), c.calls[i].id;
    if c.reader.Idle? {
      assert c.pending[id] == i;
      var m :| Unread(c, id, m);
      if m > |c.callbackAt| { assert Unread(d, id, m); }
    } else if c.reader.HasNote? {
      var m :| Unread(c, id, m);
      assert Unread(d, id, m);
    } else if c.reader.call != i {
      var m :| Unread(c, id, m);
      assert Unread(d, id, m);
    }
  }

  /** Such an answer can be taken, whatever else the reader has before it. */
  lemma {:induction false} AnswerTaken(c: C.Client, i: nat) returns (fs: seq<C.ClientEvent>)
    requires C.ClientInv(c) && !c.reader.Stopped? && Coming(c, i)
    ensures var d := Proceed(c, fs);
            && i < |d.calls| && d.calls[i].stage.Returned? && d.calls[i].stage.verdict.Got?
            && C.LineOf(d.calls[i]) == C.LineOf(c.calls[i])
    ensures NoReceipt(fs)
    decreases CR.Unread(c)
  {
    hide C.ClientInv, CR.Unread;
    if c.calls[i].buf.Some? {
      fs := [C.Take(i), C.Leave(i)];
      var d := C.Next(c, C.Take(i));
      assert d.calls[i].stage.Leaving? && d.calls[i].stage.verdict.Got?;
      assert fs[1..] == [C.Leave(i)] && [C.Leave(i)][1..] == [];
      assert Proceed(d, [C.Leave(i)]) == C.Next(d, C.Leave(i));
    } else {
      var e := ReaderEvent(c.reader);
      StillComing(c, i);
      hide C.Next, Coming;
      CR.NextKeeps(c, e);
      var rest := AnswerTaken(C.Next(c, e), i);
      fs := [e] + rest;
      assert fs[1..] == rest;
    }
  }

  // ---------- requests and their answers ----------

  /** A call that waits for its answer has been written. */
  ghost predicate Written(c: C.Client, i: nat) {
    i < |c.calls| && (c.calls[i].stage.Waiting? || c.calls[i].stage.SawClosed?) ==> C.LineOf(c.calls[i]) in c.outbox
  }

  lemma {:induction false} CallerWrites(c: C.Client, e: C.ClientEvent, i: nat)
    requires Written(c, i) && CR.IsCallers(e)
    ensures Written(C.Next(c, e), i)
  {
  }

  lemma {:induction false} StaysWritten(c: C.Client, e: C.ClientEvent, i: nat)
    requires Written(c, i)
    ensures Written(C.Next(c, e), i)
  {
    hide C.ParseId, C.DoRegister, C.DoSend, C.DoTake, C.DoCancelCall, C.DoNoticeClosed, C.DoDecide, C.DoLeave;
    if CR.IsCallers(e) { CallerWrites(c, e, i); }
  }

  /** Line `k` is the call's request, and its handler has run to its end. */
  ghost predicate Handled(server: S.Conn, call: C.Call, k: nat) {
    && k < |server.inbox| && k < server.pos && server.inbox[k] == C.LineOf(call)
    && (call.name != "" ==> k in server.started && k !in server.flights && k in server.turns)
  }

  /** A handled request has its answer, unless its run of the handler came to nothing that can be encoded. */
  lemma {:induction false} HandledIsAnswered(cfg: S.Config, server: S.Conn, call: C.Call, k: nat) returns (body: Body)
    requires S.Inv(cfg, server) && Handled(server, call, k)
    requires call.name != "" ==> cfg.handler(call.name, call.params, server.turns[k]) != S.Returned(S.Unencodable)
    ensures WasSent(server, call.id, body)
  {
    hide S.FlightsOk, S.ResponsesOk, S.StopOk;
    assert S.Owed(cfg, server, k);
    body := SR.FoundOnce(cfg, server, k);
    var j :| 0 <= j < |server.responses| && server.responses[j] == S.Response(k, Number(call.id), body);
    assert server.responses[j].id == Number(call.id) && server.responses[j].body == body;
  }

  lemma {:induction false} ReadSoFar(c: C.Client)
    requires C.ClientInv(c)
    ensures |c.callbackAt| <= |c.inbox|
  {
  }
}
