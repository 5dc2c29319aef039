/** The client as an object (internal/daemonclient/client.go): its fields, critical sections and methods. */
module ClientObjects {
  import opened Basics
  import opened JsonRpc
  import opened DaemonClient
  import R = ClientRuns

  /** The event is a step of call number `i`. */
  predicate Own(e: ClientEvent, i: nat) {
    match e
    case Register(j) => i == j
    case Send(j, _) => i == j
    case Take(j) => i == j
    case CancelCall(j) => i == j
    case NoticeClosed(j) => i == j
    case Decide(j) => i == j
    case Leave(j) => i == j
    case _ => false
  }

  predicate OfOthers(es: seq<ClientEvent>, i: nat) {
    forall k :: 0 <= k < |es| ==> !Own(es[k], i)
  }

  /** Between the steps of a call the rest of the client can only fill its channel, read, write and close. */
  ghost predicate Untouched(c: Client, d: Client, i: nat) {
    && i < |c.calls| <= |d.calls| && d.calls[i] == c.calls[i].(buf := d.calls[i].buf)
    && (c.calls[i].buf.Some? ==> d.calls[i].buf == c.calls[i].buf)
    && c.outbox <= d.outbox && (c.closed ==> d.closed)
  }

  /** What call `i` is told: it waits on, or it has returned and left the pending map, with a true verdict. */
  ghost predicate Told(c: Client, i: nat, verdict: Option<Verdict>, cancelled: bool) {
    && i < |c.calls|
    && (verdict.None? ==> c.calls[i].stage.Waiting? && !cancelled)
    && (verdict.Some? ==>
          && c.calls[i].stage == Returned(verdict.value) && c.calls[i].id !in c.pending
          && match verdict.value
             case Got(body) => Read(c.inbox, c.calls[i].id, body)
             case Cancelled => cancelled
             case ErrClosed => c.closed && i !in c.ready
             case WriteFailed => true)
  }

  lemma {:induction false} OtherStep(c: Client, e: ClientEvent, i: nat)
    requires i < |c.calls| && !Own(e, i)
    ensures Untouched(c, Next(c, e), i)
  {
  }

  lemma {:induction false} NothingYet(c: Client, i: nat)
    requires i < |c.calls|
    ensures Untouched(c, c, i)
  {
  }

  lemma {:induction false} OneMore(c: Client, d: Client, e: ClientEvent, i: nat)
    requires Untouched(c, d, i) && !Own(e, i)
    ensures Untouched(c, Next(d, e), i)
  {
    hide Next;
    OtherStep(d, e, i);
  }

  /**
   The client's fields and the bodies of its critical sections. The object always stands where the
   events so far lead, so everything proved of runs holds of it.
   */
  class ClientObject {
    var next: nat
    var calls: seq<Call>
    var pending: map<nat, nat>
    var outbox: seq<Line>
    var inbox: seq<Inbound>
    var callbackAt: seq<Option<nat>>
    var reader: ReaderState
    var callback: Option<nat>
    var queue: seq<Note>
    var handed: seq<Note>
    var dispatcher: Dispatcher
    var closed: bool
    var ready: set<nat>
    ghost var events: seq<ClientEvent>

    function State(): Client
      reads this
    {
      Client(next, calls, pending, outbox, inbox, callbackAt, reader, callback, queue, handed, dispatcher, closed, ready)
    }

    ghost predicate Valid()
      reads this
    {
      State() == Runs(events)
    }

    /** `Dial`, once connected. */
    constructor ()
      ensures Valid() && events == []
    {
      next, calls, pending, outbox, inbox := 0, [], map[], [], [];
      callbackAt, reader, callback, queue, handed, dispatcher := [], Idle, None, [], [], Looking;
      closed, ready, events := false, {}, [];
    }

    method SetCalls(c: Client)
      modifies this`next, this`calls, this`pending, this`outbox, this`closed, this`ready
      ensures (next, calls, pending, outbox, closed, ready) == (c.next, c.calls, c.pending, c.outbox, c.closed, c.ready)
    {
      next, calls, pending, outbox, closed, ready := c.next, c.calls, c.pending, c.outbox, c.closed, c.ready;
    }

    method SetReader(c: Client)
      modifies this`inbox, this`callbackAt, this`reader, this`callback, this`queue, this`handed, this`dispatcher
      ensures (inbox, callbackAt, reader, callback) == (c.inbox, c.callbackAt, c.reader, c.callback)
      ensures (queue, handed, dispatcher) == (c.queue, c.handed, c.dispatcher)
    {
      inbox, callbackAt, reader, callback := c.inbox, c.callbackAt, c.reader, c.callback;
      queue, handed, dispatcher := c.queue, c.handed, c.dispatcher;
    }

    /** A step of another goroutine. */
    method Other(e: ClientEvent)
      requires Valid()
      modifies this
      ensures Valid() && events == old(events) + [e] && State() == Next(old(State()), e)
    {
      hide Runs, Next;
      OneEvent(events, e);
      var next := Next(State(), e);
      SetCalls(next);
      SetReader(next);
      events := events + [e];
    }

    /** Whatever the other goroutines do between two steps of a call. */
    method Meanwhile(es: seq<ClientEvent>, ghost i: nat)
      requires Valid() && i < |calls| && OfOthers(es, i)
      modifies this
      ensures Valid() && Untouched(old(State()), State(), i)
    {
      hide Runs, Next, Untouched;
      NothingYet(State(), i);
      for n := 0 to |es|
        invariant Valid() && Untouched(old(State()), State(), i)
      {
        OneMore(old(State()), State(), es[n], i);
        Other(es[n]);
      }
    }

    // ---------- calls ----------

    /** Under `mu`: an id that no call has had, and an entry in the pending map. */
    method Register(i: nat)
      requires Valid() && i < |calls| && calls[i].stage.Checked?
      modifies this`next, this`calls, this`pending, this`events
      ensures Valid() && next == old(next) + 1
      ensures |calls| == |old(calls)| && calls[i] == old(calls[i]).(id := next, stage := Registered, buf := None)
      ensures old(next) + 1 !in old(pending) && pending == old(pending)[next := i]
    {
      hide Runs;
      FreshId(events);
      OneEvent(events, ClientEvent.Register(i));
      events := events + [ClientEvent.Register(i)];
      next := next + 1;
      calls := calls[i := calls[i].(id := next, stage := Registered, buf := None)];
      pending := pending[next := i];
    }

    /** `Call` up to its entry in the pending map, with what happens after the look at `closed`; None when it was closed. */
    method Enter(name: string, params: string, others: seq<ClientEvent>) returns (i: Option<nat>)
      requires Valid() && OfOthers(others, |calls|)
      modifies this
      ensures Valid()
      ensures i.None? <==> old(closed)
      ensures |calls| > |old(calls)| && calls[|old(calls)|].name == name && calls[|old(calls)|].params == params
      ensures i.None? ==> calls[|old(calls)|].stage == Returned(ErrClosed) && closed
      ensures i.Some? ==> i.value == |old(calls)| && calls[i.value].stage.Registered? && calls[i.value].id == next
      ensures i.Some? ==> next in pending && pending[next] == i.value
    {
      hide Runs, Next;
      OneEvent(events, Begin(name, params));
      Begins(State(), name, params);
      events := events + [Begin(name, params)];
      if closed {
        calls := calls + [DaemonClient.Call.Call(name, params, 0, Returned(ErrClosed), None)];
        return None;
      }
      calls := calls + [DaemonClient.Call.Call(name, params, 0, Checked, None)];
      var index := |calls| - 1;
      Meanwhile(others, index);
      Register(index);
      return Some(index);
    }

    /** Encoding and writing the request, either of which may fail. */
    method Send(i: nat, fails: bool)
      requires Valid() && i < |calls| && calls[i].stage.Registered?
      modifies this`calls, this`outbox, this`events
      ensures Valid() && events == old(events) + [ClientEvent.Send(i, !fails)]
      ensures |calls| == |old(calls)| && forall j :: 0 <= j < |calls| && j != i ==> calls[j] == old(calls[j])
      ensures calls[i] == old(calls[i]).(stage := if fails then Leaving(WriteFailed) else Waiting)
      ensures outbox == if fails then old(outbox) else old(outbox) + [LineOf(calls[i])]
    {
      hide Runs;
      OneEvent(events, ClientEvent.Send(i, !fails));
      events := events + [ClientEvent.Send(i, !fails)];
      if fails {
        calls := calls[i := calls[i].(stage := Leaving(WriteFailed))];
        return;
      }
      outbox := outbox + [LineOf(calls[i])];
      calls := calls[i := calls[i].(stage := Waiting)];
    }

    /** Receiving the reply on the call's channel, at its first `select`. */
    method Receive(i: nat) returns (body: Body)
      requires Valid() && i < |calls| && calls[i].stage.Waiting? && calls[i].buf.Some?
      modifies this`calls, this`events
      ensures Valid() && events == old(events) + [Take(i)] && Some(body) == old(calls[i].buf)
      ensures |calls| == |old(calls)| && calls[i] == old(calls[i]).(stage := Leaving(Got(body)), buf := None)
    {
      hide Runs;
      OneEvent(events, Take(i));
      events := events + [Take(i)];
      body := calls[i].buf.value;
      calls := calls[i := calls[i].(stage := Leaving(Got(body)), buf := None)];
    }

    /** The nested `select`, once the close has been chosen. */
    method AfterClose(i: nat) returns (verdict: Verdict)
      requires Valid() && i < |calls| && calls[i].stage.Waiting? && closed
      modifies this`calls, this`events
      ensures Valid() && events == old(events) + [NoticeClosed(i), Decide(i)]
      ensures verdict == if old(calls[i].buf).Some? then Got(old(calls[i].buf).value) else ErrClosed
      ensures |calls| == |old(calls)| && calls[i] == old(calls[i]).(stage := Leaving(verdict), buf := None)
    {
      hide Runs;
      TwoEvents(events, NoticeClosed(i), Decide(i));
      events := events + [NoticeClosed(i), Decide(i)];
      if calls[i].buf.Some? {
        verdict := Got(calls[i].buf.value);
      } else {
        verdict := ErrClosed;
      }
      calls := calls[i := calls[i].(stage := Leaving(verdict), buf := None)];
    }

    /**
     `Call` at its `select`, which takes any case that is ready: the reply, the end of the context or the
     close, where a reply still wins. None when no case is ready, so the call waits on.
     */
    method Await(i: nat, cancelled: bool) returns (verdict: Option<Verdict>)
      requires Valid() && i < |calls| && calls[i].stage.Waiting?
      modifies this`calls, this`events
      ensures Valid() && |calls| == |old(calls)|
      ensures verdict.None? <==> old(calls[i].buf).None? && !closed && !cancelled
      ensures verdict.None? ==> calls == old(calls)
      ensures verdict.Some? ==>
                && calls[i].stage == Leaving(verdict.value)
                && calls[i].(stage := Waiting, buf := None) == old(calls[i]).(buf := None)
                && match verdict.value
                   case Got(body) => old(calls[i].buf) == Some(body)
                   case Cancelled => cancelled
                   case ErrClosed => closed && old(calls[i].buf).None?
                   case WriteFailed => false
    {
      hide Runs;
      var pick: int := *;
      if calls[i].buf.Some? && (pick == 0 || (!cancelled && !closed)) {
        var body := Receive(i);
        return Some(Got(body));
      }
      if cancelled && (pick == 1 || !closed) {
        OneEvent(events, CancelCall(i));
        events := events + [CancelCall(i)];
        calls := calls[i := calls[i].(stage := Leaving(Cancelled))];
        return Some(Cancelled);
      }
      if closed {
        var v := AfterClose(i);
        return Some(v);
      }
      return None;
    }

    /** The deferred removal from the pending map. */
    method Leave(i: nat)
      requires Valid() && i < |calls| && calls[i].stage.Leaving?
      modifies this`calls, this`pending, this`events
      ensures Valid() && events == old(events) + [ClientEvent.Leave(i)] && pending == old(pending) - {calls[i].id}
      ensures |calls| == |old(calls)| && calls[i] == old(calls[i]).(stage := Returned(old(calls[i].stage).verdict))
    {
      hide Runs;
      OneEvent(events, ClientEvent.Leave(i));
      events := events + [ClientEvent.Leave(i)];
      pending := pending - {calls[i].id};
      calls := calls[i := calls[i].(stage := Returned(calls[i].stage.verdict))];
    }

    /**
     A call that waits, with any steps of the rest of the client before its `select` and before it leaves. It
     goes on waiting, to be resumed by another call of this method, only if no reply has come, the client is
     open and the context has not ended.
     */
    method Wait(i: nat, cancelled: bool, others: nat -> seq<ClientEvent>) returns (verdict: Option<Verdict>)
      requires Valid() && i < |calls| && calls[i].stage.Waiting? && forall n: nat :: OfOthers(others(n), i)
      modifies this
      ensures Valid() && Told(State(), i, verdict, cancelled) && verdict != Some(WriteFailed)
      ensures verdict.None? ==> old(calls[i].buf).None? && !old(closed)
      ensures LineOf(calls[i]) == LineOf(old(calls[i])) && old(outbox) <= outbox
    {
      hide Runs, Read;
      Meanwhile(others(2), i);
      verdict := Await(i, cancelled);
      if verdict.Some? {
        Meanwhile(others(3), i);
        Leave(i);
        CallFacts(events, i);
      }
    }

    /** A registered call up to its wait. */
    method Exchange(i: nat, fails: bool, others: nat -> seq<ClientEvent>)
      requires Valid() && i < |calls| && calls[i].stage.Registered? && forall n: nat :: OfOthers(others(n), i)
      modifies this
      ensures Valid() && i < |calls|
      ensures LineOf(calls[i]) == LineOf(old(calls[i])) && calls[i].id == old(calls[i].id)
      ensures calls[i].stage == if fails then Leaving(WriteFailed) else Waiting
      ensures !fails ==> LineOf(calls[i]) in outbox
    {
      hide Runs;
      Meanwhile(others(1), i);
      Send(i, fails);
    }

    /**
     `Call`, with any steps of the rest of the client between its own. The caller gets a response that came
     off the wire for this call's own id, or an error that is true: the client was or is closed, the write
     failed, or the context ended; and no error of a close if a reply had come by then. None while it waits.
     */
    method Call(name: string, params: string, fails: bool, cancelled: bool, others: nat -> seq<ClientEvent>) returns (verdict: Option<Verdict>)
      requires Valid() && forall n: nat :: OfOthers(others(n), |calls|)
      modifies this
      ensures Valid() && Told(State(), |old(calls)|, verdict, cancelled)
      ensures calls[|old(calls)|].name == name && calls[|old(calls)|].params == params
      ensures old(closed) ==> verdict == Some(ErrClosed)
      ensures verdict == Some(WriteFailed) <==> !old(closed) && fails
      ensures !old(closed) && !fails ==> LineOf(calls[|old(calls)|]) in outbox
    {
      hide Runs, Read;
      var i := |calls|;
      var entered := Enter(name, params, others(0));
      if entered.None? {
        CallFacts(events, i);
        return Some(ErrClosed);
      }
      Exchange(i, fails, others);
      if fails {
        Meanwhile(others(3), i);
        Leave(i);
        CallFacts(events, i);
        return Some(WriteFailed);
      }
      verdict := Wait(i, cancelled, others);
    }

    // ---------- callbacks, close ----------

    method OnNotification(fn: Option<nat>)
      requires Valid()
      modifies this`callback, this`events
      ensures Valid() && events == old(events) + [SetCallback(fn)] && callback == fn
    {
      hide Runs;
      OneEvent(events, SetCallback(fn));
      events := events + [SetCallback(fn)];
      callback := fn;
    }

    /** Only the first call does anything: what is in the channels and the queue stays. */
    method Close()
      requires Valid()
      modifies this`closed, this`ready, this`events
      ensures Valid() && events == old(events) + [ClientEvent.Close] && closed
      ensures old(closed) ==> ready == old(ready)
    {
      hide Runs;
      OneEvent(events, ClientEvent.Close);
      events := events + [ClientEvent.Close];
      if !closed {
        closed, ready := true, set i | 0 <= i < |calls| && HasReplyWaiting(calls[i]);
      }
    }

    // ---------- the reader ----------

    /** A line arrives on the connection. */
    method Arrive(line: Inbound)
      requires Valid()
      modifies this`inbox, this`events
      ensures Valid() && events == old(events) + [ClientEvent.Receive(line)] && inbox == old(inbox) + [line]
    {
      hide Runs;
      OneEvent(events, ClientEvent.Receive(line));
      events := events + [ClientEvent.Receive(line)];
      inbox := inbox + [line];
    }

    /** `readLoop` takes a line and looks up whom it is for. */
    method Fetch()
      requires Valid() && reader.Idle? && |callbackAt| < |inbox|
      modifies this`callbackAt, this`reader, this`events
      ensures Valid() && callbackAt == old(callbackAt) + [callback]
      ensures reader ==
              match inbox[|old(callbackAt)|]
              case Junk => Idle
              case Notice(name, params) => if callback.Some? then HasNote(Note(callback.value, name, params)) else Idle
              case Reply(id, body) =>
                var n := ParseId(id);
                if n.Some? && n.value in pending then HasReply(pending[n.value], body) else Idle
    {
      hide Runs;
      OneEvent(events, ReadLine);
      events := events + [ReadLine];
      var line := inbox[|callbackAt|];
      callbackAt := callbackAt + [callback];
      match line
      case Junk =>
      case Notice(name, params) =>
        if callback.Some? {
          reader := HasNote(Note(callback.value, name, params));
        }
      case Reply(id, body) =>
        var n := ParseId(id);
        if n.Some? && n.value in pending {
          reader := HasReply(pending[n.value], body);
        }
    }

    /** The non-blocking send: a full channel stays as it is, an empty one holds the reply, no other call changes. */
    method PutReply()
      requires Valid() && reader.HasReply? && reader.call < |calls|
      modifies this`calls, this`reader, this`events
      ensures Valid() && reader.Idle? && |calls| == |old(calls)|
      ensures forall j :: 0 <= j < |calls| && j != old(reader.call) ==> calls[j] == old(calls[j])
      ensures var i := old(reader.call);
              calls[i] == if old(calls)[i].buf.None? then old(calls)[i].(buf := Some(old(reader.body))) else old(calls)[i]
    {
      hide Runs;
      OneEvent(events, Deposit);
      events := events + [Deposit];
      var i := reader.call;
      if calls[i].buf.None? {
        calls := calls[i := calls[i].(buf := Some(reader.body))];
      }
      reader := Idle;
    }

    /** Appending to the notification queue. */
    method PutNote()
      requires Valid() && reader.HasNote?
      modifies this`queue, this`reader, this`events
      ensures Valid() && reader.Idle? && queue == old(queue) + [old(reader).note]
    {
      hide Runs;
      OneEvent(events, Enqueue);
      events := events + [Enqueue];
      queue, reader := queue + [reader.note], Idle;
    }

    /**
     One turn of `readLoop`: a reply goes into the channel of the one call that has its id and has not
     returned, if that channel is empty; a notification is queued for the callback set; nothing else changes.
     */
    method ReadOne()
      requires Valid() && reader.Idle? && |callbackAt| < |inbox|
      modifies this`callbackAt, this`reader, this`calls, this`queue, this`events
      ensures Valid() && reader.Idle? && callbackAt == old(callbackAt) + [callback] && |calls| == |old(calls)|
      ensures var line := inbox[|old(callbackAt)|];
              queue == old(queue) + if line.Notice? && callback.Some? then [Note(callback.value, line.name, line.params)] else []
      ensures forall i :: 0 <= i < |calls| ==>
                calls[i] == if Addressed(inbox[|old(callbackAt)|], old(calls)[i]) && old(calls)[i].buf.None?
                            then old(calls)[i].(buf := Some(inbox[|old(callbackAt)|].body)) else old(calls)[i]
    {
      hide Runs, Next, Addressed;
      forall i | 0 <= i < |calls|
        ensures Addressed(inbox[|callbackAt|], calls[i]) <==>
                var line := inbox[|callbackAt|];
                line.Reply? && ParseId(line.id).Some? && ParseId(line.id).value in pending && pending[ParseId(line.id).value] == i
      {
        WhoseReply(events, i, inbox[|callbackAt|]);
      }
      PendingInRange(events);
      Fetch();
      if reader.HasReply? {
        PutReply();
      } else if reader.HasNote? {
        PutNote();
      }
    }

    /** The end of `readLoop` closes the client. */
    method EndReading()
      requires Valid() && reader.Idle?
      modifies this`reader, this`closed, this`ready, this`events
      ensures Valid() && reader.Stopped? && closed
    {
      hide Runs;
      OneEvent(events, StopReading);
      events := events + [StopReading];
      reader := Stopped;
      Close();
    }

    // ---------- the dispatcher ----------

    /** The dispatcher takes the first notification and calls its callback. */
    method DispatchOne()
      requires Valid() && dispatcher.Looking? && queue != []
      modifies this`queue, this`handed, this`events
      ensures Valid() && handed + queue == old(handed) + old(queue) && |queue| < |old(queue)|
    {
      hide Runs, Next;
      TwoEvents(events, Dispatch, CallBack);
      HandsOver(State());
      handed, queue := handed + [queue[0]], queue[1..];
      events := events + [Dispatch, CallBack];
    }

    /** `dispatchNotifications` after the close, with the reader stopped: all that is queued is handed over. */
    method DispatchAll()
      requires Valid() && closed && dispatcher.Looking?
      modifies this`queue, this`handed, this`events, this`dispatcher
      ensures Valid() && dispatcher.Finished? && queue == [] && handed == old(handed) + old(queue)
    {
      hide Runs, Next;
      while queue != []
        invariant Valid() && dispatcher.Looking?
        invariant handed + queue == old(handed) + old(queue)
        decreases |queue|
      {
        DispatchOne();
      }
      OneEvent(events, Dispatch);
      Ends(State());
      dispatcher := Finished;
      events := events + [Dispatch];
    }
  }

  /** The line is a reply to this call, which has not returned. */
  predicate Addressed(line: Inbound, call: Call) {
    line.Reply? && call.id > 0 && ParseId(line.id) == Some(call.id) && !call.stage.Returned?
  }

  /** A call that is registered and has not returned is the one its id leads to. */
  lemma {:induction false} WhoseReply(es: seq<ClientEvent>, i: nat, line: Inbound)
    requires i < |Runs(es).calls|
    ensures var c := Runs(es);
            Addressed(line, c.calls[i]) <==>
            line.Reply? && ParseId(line.id).Some? && ParseId(line.id).value in c.pending && c.pending[ParseId(line.id).value] == i
  {
    hide Runs, OutboxOk, NotesOk, Read;
    R.RunsKeep(es);
    assert CallOk(Runs(es), i);
  }

  lemma {:induction false} FreshId(es: seq<ClientEvent>)
    ensures Runs(es).next + 1 !in Runs(es).pending
  {
    hide Runs, OutboxOk, NotesOk, Read;
    R.RunsKeep(es);
    var c := Runs(es);
    forall id | id in c.pending ensures id <= c.next {
      assert CallOk(c, c.pending[id]);
    }
  }

  lemma {:induction false} PendingInRange(es: seq<ClientEvent>)
    ensures forall id :: id in Runs(es).pending ==> Runs(es).pending[id] < |Runs(es).calls|
  {
    hide Runs, OutboxOk, NotesOk, CallsOk;
    R.RunsKeep(es);
  }

  lemma {:induction false} CallFacts(es: seq<ClientEvent>, i: nat)
    requires i < |Runs(es).calls|
    ensures CallOk(Runs(es), i)
  {
    hide Runs, OutboxOk, NotesOk, CallOk;
    R.RunsKeep(es);
  }

  lemma {:induction false} Begins(c: Client, name: string, params: string)
    ensures Next(c, Begin(name, params)) == DoBegin(c, name, params)
  {
  }

  lemma {:induction false} Ends(c: Client)
    requires c.dispatcher.Looking? && c.queue == [] && c.closed
    ensures Next(c, Dispatch) == c.(dispatcher := Finished)
  {
  }

  lemma {:induction false} HandsOver(c: Client)
    requires c.dispatcher.Looking? && c.queue != []
    ensures Next(Next(c, Dispatch), CallBack) == c.(handed := c.handed + [c.queue[0]], queue := c.queue[1..])
  {
  }

  lemma {:induction false} OneEvent(es: seq<ClientEvent>, a: ClientEvent)
    ensures Runs(es + [a]) == Next(Runs(es), a)
  {
    hide Next;
    assert (es + [a])[..|es|] == es;
  }

  lemma {:induction false} TwoEvents(es: seq<ClientEvent>, a: ClientEvent, b: ClientEvent)
    ensures Runs(es + [a, b]) == Next(Next(Runs(es), a), b) && es + [a] + [b] == es + [a, b]
  {
    hide Next;
    assert (es + [a, b])[..|es| + 1] == es + [a];
    assert (es + [a])[..|es|] == es;
  }
}
