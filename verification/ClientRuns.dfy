/** Every run of the client: replies, the close, the reader and the notifications. */
module ClientRuns {
  import opened Basics
  import opened JsonRpc
  import opened DaemonClient

  // ---------- every step keeps it ----------

  /** More input does not unread anything. */
  lemma {:induction false} ReadGrows(inbox: seq<Inbound>, longer: seq<Inbound>, id: nat, body: Body)
    requires Read(inbox, id, body) && inbox <= longer
    ensures Read(longer, id, body)
  {
    var k :| 0 <= k < |inbox| && Answers(inbox[k], id, body);
    assert Answers(longer[k], id, body);
  }

  lemma {:induction false} CallStays(c: Client, d: Client, i: nat)
    requires i < |c.calls| && i < |d.calls| && CallOk(c, i) && d.calls[i] == c.calls[i]
    requires c.inbox <= d.inbox && c.next <= d.next && (i in d.ready ==> i in c.ready)
    requires c.calls[i].id in d.pending <==> c.calls[i].id in c.pending
    ensures CallOk(d, i)
  {
    var call := c.calls[i];
    if call.buf.Some? { ReadGrows(c.inbox, d.inbox, call.id, call.buf.value); }
    if (call.stage.Leaving? || call.stage.Returned?) && call.stage.verdict.Got? {
      ReadGrows(c.inbox, d.inbox, call.id, call.stage.verdict.body);
    }
  }

  /** One call changes. */
  lemma {:induction false} OneCall(c: Client, d: Client, i: nat)
    requires CallsOk(c) && i < |c.calls| && |d.calls| == |c.calls| && d.calls == c.calls[i := d.calls[i]]
    requires d.inbox == c.inbox && c.next <= d.next && d.ready == c.ready
    requires forall j :: 0 <= j < |c.calls| && j != i ==> (c.calls[j].id in d.pending <==> c.calls[j].id in c.pending)
    requires CallOk(d, i)
    ensures CallsOk(d)
  {
    forall j | 0 <= j < |d.calls| ensures CallOk(d, j) {
      if j != i { CallStays(c, d, j); }
    }
  }

  lemma {:induction false} SameLine(c: Client, d: Client, line: Line)
    requires SentBy(c, line) && |c.calls| <= |d.calls|
    requires forall i :: 0 <= i < |c.calls| && c.calls[i].id > 0 ==>
               d.calls[i].id == c.calls[i].id && d.calls[i].name == c.calls[i].name && d.calls[i].params == c.calls[i].params
    ensures SentBy(d, line)
  {
    var i :| 0 <= i < |c.calls| && c.calls[i].id > 0 && line == LineOf(c.calls[i]);
    assert line == LineOf(d.calls[i]);
  }

  lemma {:induction false} OutboxSame(c: Client, d: Client)
    requires OutboxOk(c) && d.outbox == c.outbox && |c.calls| <= |d.calls|
    requires forall i :: 0 <= i < |c.calls| && c.calls[i].id > 0 ==>
               d.calls[i].id == c.calls[i].id && d.calls[i].name == c.calls[i].name && d.calls[i].params == c.calls[i].params
    ensures OutboxOk(d)
  {
    forall k | 0 <= k < |d.outbox| ensures SentBy(d, d.outbox[k]) { SameLine(c, d, c.outbox[k]); }
  }

  lemma {:induction false} ReaderSame(c: Client, d: Client)
    requires ReaderOk(c) && d.reader == c.reader && c.inbox <= d.inbox && d.callbackAt == c.callbackAt && |c.calls| <= |d.calls|
    requires forall i :: 0 <= i < |c.calls| && c.calls[i].id > 0 ==> d.calls[i].id == c.calls[i].id
    ensures ReaderOk(d)
  {
    if c.reader.HasReply? { ReadGrows(c.inbox, d.inbox, c.calls[c.reader.call].id, c.reader.body); }
  }

  lemma {:induction false} NotesStable(a: seq<Inbound>, b: seq<Inbound>, at: seq<Option<nat>>)
    requires |at| <= |a| && a <= b
    ensures NotesOf(b, at) == NotesOf(a, at)
    decreases |at|
  {
    if at != [] { NotesStable(a, b, at[..|at| - 1]); }
  }

  lemma {:induction false} NotesSame(c: Client, d: Client)
    requires NotesOk(c) && c.inbox <= d.inbox && d.callbackAt == c.callbackAt
    requires d.handed == c.handed && d.dispatcher == c.dispatcher && d.queue == c.queue && Held(d.reader) == Held(c.reader)
    ensures NotesOk(d)
  {
    NotesStable(c.inbox, d.inbox, c.callbackAt);
  }

  /** A step of one call that leaves ids, input, reader and notifications alone. */
  lemma {:induction false} CallerStep(c: Client, d: Client, i: nat)
    requires ClientInv(c) && i < |c.calls| && |d.calls| == |c.calls| && d.calls == c.calls[i := d.calls[i]]
    requires d == c.(calls := d.calls, pending := d.pending, outbox := d.outbox)
    requires d.calls[i].id == c.calls[i].id && d.calls[i].name == c.calls[i].name && d.calls[i].params == c.calls[i].params
    requires d.pending == c.pending || (d.pending == c.pending - {c.calls[i].id} && c.calls[i].id > 0)
    requires d.outbox == c.outbox || (d.outbox == c.outbox + [LineOf(d.calls[i])] && d.calls[i].id > 0)
    requires CallOk(d, i)
    ensures ClientInv(d)
  {
    hide CallOk, SentBy, Read, NotesOf;
    OneCall(c, d, i);
    OutboxSame(c, d.(outbox := c.outbox));
    SentAlso(c, d, i);
    ReaderSame(c, d);
    NotesSame(c, d);
  }

  lemma {:induction false} SentAlso(c: Client, d: Client, i: nat)
    requires OutboxOk(d.(outbox := c.outbox)) && i < |d.calls|
    requires d.outbox == c.outbox || (d.outbox == c.outbox + [LineOf(d.calls[i])] && d.calls[i].id > 0)
    ensures OutboxOk(d)
  {
    forall k | 0 <= k < |d.outbox| ensures SentBy(d, d.outbox[k]) {
      if k < |c.outbox| {
        assert SentBy(d.(outbox := c.outbox), c.outbox[k]);
        SameLine(d.(outbox := c.outbox), d, c.outbox[k]);
      } else {
        assert d.outbox[k] == LineOf(d.calls[i]);
      }
    }
  }

  lemma {:induction false} KeepsBegin(c: Client, name: string, params: string)
    requires ClientInv(c)
    ensures ClientInv(DoBegin(c, name, params))
  {
    hide SentBy, Read, NotesOf;
    var d := DoBegin(c, name, params);
    forall j | 0 <= j < |d.calls| ensures CallOk(d, j) {
      if j < |c.calls| { CallStays(c, d, j); }
    }
    OutboxSame(c, d);
    ReaderSame(c, d);
    NotesSame(c, d);
  }

  lemma {:induction false} KeepsRegister(c: Client, i: nat)
    requires ClientInv(c)
    ensures ClientInv(DoRegister(c, i))
  {
    hide SentBy, Read, NotesOf;
    if StageOf(c, i).Checked? {
      var d := DoRegister(c, i);
      assert CallOk(c, i);
      forall j | 0 <= j < |c.calls| ensures c.calls[j].id <= c.next { assert CallOk(c, j); }
      OneCall(c, d, i);
      OutboxSame(c, d);
      ReaderSame(c, d);
      NotesSame(c, d);
    }
  }

  lemma {:induction false} CallFacts(c: Client, i: nat)
    requires ClientInv(c) && i < |c.calls|
    ensures CallOk(c, i)
  {
  }

  /** A registered call sends, waits, takes its reply or leaves. */
  lemma {:induction false} KeepsCaller(c: Client, e: ClientEvent, i: nat)
    requires ClientInv(c)
    requires e.Send? || e.Take? || e.CancelCall? || e.NoticeClosed? || e.Decide? || e.Leave?
    requires e.i == i
    ensures ClientInv(Next(c, e))
  {
    hide ClientInv, Read;
    if i < |c.calls| {
      CallFacts(c, i);
      CallerStep(c, Next(c, e), i);
    }
  }

  /** The calls do not change, and the rest is given. */
  lemma {:induction false} CallsSame(c: Client, d: Client)
    requires CallsOk(c) && IdsOk(c) && OutboxOk(c) && d.calls == c.calls && d.pending == c.pending
    requires d.next == c.next && d.ready == c.ready && d.outbox == c.outbox && c.inbox <= d.inbox
    ensures CallsOk(d) && IdsOk(d) && OutboxOk(d)
  {
    hide CallOk, SentBy;
    forall j | 0 <= j < |d.calls| ensures CallOk(d, j) { CallStays(c, d, j); }
    OutboxSame(c, d);
  }

  lemma {:induction false} KeepsReceive(c: Client, e: ClientEvent)
    requires ClientInv(c) && (e.Receive? || e.SetCallback? || e.StopReading?)
    ensures ClientInv(Next(c, e))
  {
    hide CallsOk, IdsOk, OutboxOk, NotesOk;
    var d := Next(c, e);
    CallsSame(c, d);
    if !e.StopReading? { ReaderSame(c, d); }
    NotesSame(c, d);
  }

  lemma {:induction false} NotesRead(lines: seq<Inbound>, at: seq<Option<nat>>, callback: Option<nat>)
    requires |at| < |lines|
    ensures NotesOf(lines, at + [callback]) == NotesOf(lines, at) +
              if lines[|at|].Notice? && callback.Some? then [Note(callback.value, lines[|at|].name, lines[|at|].params)] else []
  {
    assert (at + [callback])[..|at|] == at;
  }

  lemma {:induction false} NotesAfterRead(c: Client)
    requires NotesOk(c)
    ensures NotesOk(DoReadLine(c))
  {
    hide NotesOf;
    var d, k := DoReadLine(c), |c.callbackAt|;
    if c.reader.Idle? && k < |c.inbox| {
      NotesRead(c.inbox, c.callbackAt, c.callback);
      assert d.handed + InHand(d.dispatcher) + d.queue + [] == d.handed + InHand(d.dispatcher) + d.queue;
    }
  }

  lemma {:induction false} ReaderAfterRead(c: Client)
    requires ReaderOk(c) && IdsOk(c)
    ensures ReaderOk(DoReadLine(c))
  {
    var d, k := DoReadLine(c), |c.callbackAt|;
    if d.reader.HasReply? && c.reader.Idle? {
      assert Answers(c.inbox[k], c.calls[d.reader.call].id, d.reader.body);
    }
  }

  lemma {:induction false} KeepsReadLine(c: Client)
    requires ClientInv(c)
    ensures ClientInv(DoReadLine(c))
  {
    hide CallsOk, IdsOk, OutboxOk, NotesOk, ReaderOk;
    CallsSame(c, DoReadLine(c));
    NotesAfterRead(c);
    ReaderAfterRead(c);
  }

  lemma {:induction false} CallsAfterDeposit(c: Client)
    requires CallsOk(c) && ReaderOk(c)
    ensures CallsOk(DoDeposit(c))
  {
    hide Read;
    if c.reader.HasReply? {
      var i := c.reader.call;
      assert CallOk(c, i);
      OneCall(c, DoDeposit(c), i);
    }
  }

  lemma {:induction false} KeepsDeposit(c: Client)
    requires ClientInv(c)
    ensures ClientInv(DoDeposit(c))
  {
    hide CallsOk, OutboxOk, NotesOk;
    if c.reader.HasReply? {
      var d := DoDeposit(c);
      CallsAfterDeposit(c);
      OutboxSame(c, d);
      NotesSame(c, d);
    }
  }

  lemma {:induction false} KeepsNotes(c: Client)
    requires ClientInv(c)
    ensures ClientInv(DoEnqueue(c)) && ClientInv(DoDispatch(c)) && ClientInv(DoCallBack(c))
  {
    hide CallsOk, IdsOk, OutboxOk, NotesOf, Read;
    CallsSame(c, DoEnqueue(c));
    CallsSame(c, DoDispatch(c));
    CallsSame(c, DoCallBack(c));
    if c.reader.HasNote? {
      assert c.handed + InHand(c.dispatcher) + c.queue + Held(c.reader)
          == c.handed + InHand(c.dispatcher) + (c.queue + [c.reader.note]) + [];
    }
    if c.dispatcher.Looking? && c.queue != [] {
      assert c.handed + [] + c.queue + Held(c.reader) == c.handed + [c.queue[0]] + c.queue[1..] + Held(c.reader);
    }
    if c.dispatcher.Calling? {
      assert c.handed + [c.dispatcher.note] + c.queue + Held(c.reader) == (c.handed + [c.dispatcher.note]) + [] + c.queue + Held(c.reader);
    }
  }

  lemma {:induction false} KeepsClose(c: Client)
    requires ClientInv(c)
    ensures ClientInv(DoClose(c))
  {
    hide NotesOf, Read, SentBy;
    var d := DoClose(c);
    forall j | 0 <= j < |d.calls| ensures CallOk(d, j) { assert CallOk(c, j); }
    OutboxSame(c, d);
    NotesSame(c, d);
  }

  lemma {:induction false} NextKeeps(c: Client, e: ClientEvent)
    requires ClientInv(c)
    ensures ClientInv(Next(c, e))
  {
    hide ClientInv;
    match e
    case Begin(name, params) => KeepsBegin(c, name, params);
    case Register(i) => KeepsRegister(c, i);
    case Send(i, _) => KeepsCaller(c, e, i);
    case Take(i) => KeepsCaller(c, e, i);
    case Decide(i) => KeepsCaller(c, e, i);
    case CancelCall(i) => KeepsCaller(c, e, i);
    case NoticeClosed(i) => KeepsCaller(c, e, i);
    case Leave(i) => KeepsCaller(c, e, i);
    case SetCallback(_) => KeepsReceive(c, e);
    case Receive(_) => KeepsReceive(c, e);
    case StopReading => KeepsReceive(c, e);
    case ReadLine => KeepsReadLine(c);
    case Deposit => KeepsDeposit(c);
    case Close => KeepsClose(c);
    case _ => KeepsNotes(c);
  }

  lemma {:induction false} RunsKeep(es: seq<ClientEvent>)
    ensures ClientInv(Runs(es))
  {
    hide Next;
    if es != [] {
      RunsKeep(es[..|es| - 1]);
      NextKeeps(Runs(es[..|es| - 1]), es[|es| - 1]);
    }
  }

  // ---------- what every run promises ----------

  lemma {:induction false} RunsSnoc(es: seq<ClientEvent>, e: ClientEvent)
    ensures Runs(es + [e]) == Next(Runs(es), e)
  {
    assert (es + [e])[..|es|] == es;
  }

  lemma {:induction false} ClosedStays(c: Client, e: ClientEvent)
    requires c.closed
    ensures Next(c, e).closed && Next(c, e).ready == c.ready
  {
    hide ParseId, LineOf;
  }

  lemma {:induction false} ReadyStays(es: seq<ClientEvent>, fs: seq<ClientEvent>)
    requires Runs(es).closed
    ensures Runs(es + fs).closed && Runs(es + fs).ready == Runs(es).ready
    decreases |fs|
  {
    hide Next;
    if fs == [] {
      assert es + fs == es;
    } else {
      var n := |fs| - 1;
      ReadyStays(es, fs[..n]);
      assert es + fs == es + fs[..n] + [fs[n]];
      RunsSnoc(es + fs[..n], fs[n]);
      ClosedStays(Runs(es + fs[..n]), fs[n]);
    }
  }

  predicate ReturnsErrClosed(c: Client, i: nat) {
    i < |c.calls| && (c.calls[i].stage == Leaving(ErrClosed) || c.calls[i].stage == Returned(ErrClosed))
  }

  /** A call whose reply is in its channel when the client closes never returns ErrClosed, whatever comes after. */
  lemma {:induction false} ReplyBeatsClose(es: seq<ClientEvent>, fs: seq<ClientEvent>, i: nat)
    requires var c := Runs(es);
             && !c.closed && i < |c.calls| && c.calls[i].buf.Some?
             && (c.calls[i].stage.Registered? || c.calls[i].stage.Waiting?)
    ensures i < |Runs(es + [Close] + fs).calls| && !ReturnsErrClosed(Runs(es + [Close] + fs), i)
  {
    hide Runs, OutboxOk, NotesOk;
    RunsSnoc(es, Close);
    assert HasReplyWaiting(Runs(es).calls[i]);
    assert i in Runs(es + [Close]).ready;
    ReadyStays(es + [Close], fs);
    RunsKeep(es + [Close] + fs);
    assert CallOk(Runs(es + [Close] + fs), i);
  }

  // ---------- what a caller is told is true ----------

  ghost predicate Truthful(es: seq<ClientEvent>, c: Client, i: nat)
    requires i < |c.calls|
  {
    var stage := c.calls[i].stage;
    && (stage.SawClosed? ==> c.closed)
    && (stage.Leaving? || stage.Returned? ==>
          && (stage.verdict.ErrClosed? ==> c.closed)
          && (stage.verdict.Cancelled? ==> CancelCall(i) in es)
          && (stage.verdict.WriteFailed? ==> Send(i, false) in es))
  }

  lemma {:induction false} TruthfulStep(es: seq<ClientEvent>, c: Client, e: ClientEvent, i: nat)
    requires i < |c.calls| ==> Truthful(es, c, i)
    ensures i < |Next(c, e).calls| ==> Truthful(es + [e], Next(c, e), i)
  {
    assert forall x :: x in es ==> x in es + [e];
    assert e in es + [e];
  }

  lemma {:induction false} TruthfulRun(es: seq<ClientEvent>, i: nat)
    requires i < |Runs(es).calls|
    ensures Truthful(es, Runs(es), i)
  {
    if es != [] {
      hide Next, Truthful;
      var init := es[..|es| - 1];
      assert es == init + [es[|es| - 1]];
      if i < |Runs(init).calls| { TruthfulRun(init, i); }
      TruthfulStep(init, Runs(init), es[|es| - 1], i);
    }
  }

  /**
   Every error a caller gets is true: ErrClosed of a closed client, a cancellation of a call that was
   cancelled, a write error of one whose write failed.
   */
  lemma {:induction false} ErrorsAreTrue(es: seq<ClientEvent>, i: nat)
    requires i < |Runs(es).calls| && Runs(es).calls[i].stage.Returned?
    ensures match Runs(es).calls[i].stage.verdict
            case Got(_) => true
            case ErrClosed => Runs(es).closed
            case Cancelled => CancelCall(i) in es
            case WriteFailed => Send(i, false) in es
  {
    hide Runs;
    TruthfulRun(es, i);
  }

  // ---------- callers go on ----------

  predicate IsCallers(e: ClientEvent) {
    e.Register? || e.Send? || e.Take? || e.CancelCall? || e.NoticeClosed? || e.Decide? || e.Leave?
  }

  predicate OfCall(e: ClientEvent, i: nat) {
    IsCallers(e) && e.i == i
  }

  /** How many more steps a call takes at most. */
  function CallLeft(stage: Stage): nat {
    match stage
    case Checked => 5
    case Registered => 4
    case Waiting => 3
    case SawClosed => 2
    case Leaving(_) => 1
    case Returned(_) => 0
  }

  lemma {:induction false} CallerMoves(c: Client, e: ClientEvent, i: nat)
    requires i < |c.calls| && IsCallers(e)
    ensures i < |Next(c, e).calls|
    ensures var stage := StageOf(Next(c, e), i);
            CallLeft(stage) <= CallLeft(c.calls[i].stage) && (!OfCall(e, i) ==> stage == c.calls[i].stage)
  {
    hide LineOf;
  }

  lemma {:induction false} StageMoves(c: Client, e: ClientEvent, i: nat)
    requires i < |c.calls|
    ensures i < |Next(c, e).calls|
    ensures var stage := StageOf(Next(c, e), i);
            CallLeft(stage) <= CallLeft(c.calls[i].stage) && (!OfCall(e, i) ==> stage == c.calls[i].stage)
  {
    hide ParseId, CallLeft, DoRegister, DoSend, DoTake, DoCancelCall, DoNoticeClosed, DoDecide, DoLeave;
    if IsCallers(e) { CallerMoves(c, e, i); }
  }

  /** The next step of a call, if it can make one. */
  function CallStep(call: Call, i: nat): ClientEvent {
    match call.stage
    case Checked => Register(i)
    case Registered => Send(i, true)
    case Waiting => if call.buf.Some? then Take(i) else NoticeClosed(i)
    case SawClosed => Decide(i)
    case Leaving(_) => Leave(i)
    case Returned(_) => Leave(i)
  }

  lemma {:induction false} StageNearer(c: Client, i: nat)
    requires i < |c.calls| && !c.calls[i].stage.Returned?
    requires c.calls[i].stage.Waiting? ==> c.calls[i].buf.Some? || c.closed
    ensures var x := CallStep(c.calls[i], i);
            OfCall(x, i) && CallLeft(StageOf(Next(c, x), i)) < CallLeft(c.calls[i].stage)
  {
    hide LineOf;
  }

  /**
   A call is never stuck: until it returns there is a step of its own that brings it nearer to that, except
   while it waits with an empty channel on an open client; no step of its own takes it back, and no other
   step moves it.
   */
  lemma {:induction false} CallGoesOn(es: seq<ClientEvent>, e: ClientEvent, i: nat)
    requires i < |Runs(es).calls|
    ensures var c := Runs(es);
            var call := c.calls[i];
            && (call.stage.Returned? || (call.stage.Waiting? && call.buf.None? && !c.closed)
                || exists x :: OfCall(x, i) && CallLeft(StageOf(Runs(es + [x]), i)) < CallLeft(call.stage))
            && i < |Runs(es + [e]).calls| && CallLeft(StageOf(Runs(es + [e]), i)) <= CallLeft(call.stage)
            && (!OfCall(e, i) ==> StageOf(Runs(es + [e]), i) == call.stage)
  {
    hide Runs, Next, CallStep, CallLeft;
    var c := Runs(es);
    RunsSnoc(es, e);
    StageMoves(c, e, i);
    var x := CallStep(c.calls[i], i);
    RunsSnoc(es, x);
    if !c.calls[i].stage.Returned? && (c.calls[i].stage.Waiting? ==> c.calls[i].buf.Some? || c.closed) {
      StageNearer(c, i);
      assert OfCall(x, i) && CallLeft(StageOf(Runs(es + [x]), i)) < CallLeft(c.calls[i].stage);
    }
  }

  /**
   The notifications handed to callbacks are a prefix of those read while a callback was set, in
   read order, each with the callback of its time.
   */
  lemma {:induction false} NotificationsInOrder(es: seq<ClientEvent>)
    ensures var c := Runs(es);
            |c.callbackAt| <= |c.inbox| && c.handed <= NotesOf(c.inbox, c.callbackAt)
  {
    hide Runs, NotesOf;
    RunsKeep(es);
    var c := Runs(es);
    assert c.handed + InHand(c.dispatcher) + c.queue + Held(c.reader) == c.handed + (InHand(c.dispatcher) + c.queue + Held(c.reader));
  }

  /** When the dispatcher returns, all that had been queued has been handed over. */
  lemma {:induction false} DispatcherReturnsEmpty(es: seq<ClientEvent>, e: ClientEvent)
    requires !Runs(es).dispatcher.Finished? && Next(Runs(es), e).dispatcher.Finished?
    ensures var c := Runs(es);
            && c.closed && c.queue == [] && |c.callbackAt| <= |c.inbox|
            && c.handed + Held(c.reader) == NotesOf(c.inbox, c.callbackAt)
  {
    hide Runs, NotesOf;
    RunsKeep(es);
    var c := Runs(es);
    assert e.Dispatch?;
    assert c.handed + [] + [] + Held(c.reader) == c.handed + Held(c.reader);
  }

  /** The pending map holds exactly the registered calls that have not returned. */
  lemma {:induction false} PendingIsExact(es: seq<ClientEvent>, id: nat)
    ensures var c := Runs(es);
            id in c.pending <==> exists i :: 0 <= i < |c.calls| && c.calls[i].id == id && id > 0 && !c.calls[i].stage.Returned?
  {
    hide Runs, NotesOk, OutboxOk, Read;
    RunsKeep(es);
    var c := Runs(es);
    if id in c.pending {
      assert CallOk(c, c.pending[id]);
    }
    if i :| 0 <= i < |c.calls| && c.calls[i].id == id && id > 0 && !c.calls[i].stage.Returned? {
      assert CallOk(c, i);
    }
  }

  /** What the reader does next. */
  function ReaderStep(c: Client): Client {
    match c.reader
    case Idle => DoReadLine(c)
    case HasReply(_, _) => DoDeposit(c)
    case HasNote(_) => DoEnqueue(c)
    case Stopped => c
  }

  function Unread(c: Client): nat {
    if |c.callbackAt| <= |c.inbox| then 2 * (|c.inbox| - |c.callbackAt|) + (if c.reader.Idle? then 0 else 1) else 0
  }

  /** The reader on its own, until it has read everything. */
  function Drain(c: Client, steps: nat): Client
    decreases steps
  {
    if steps == 0 then c else Drain(ReaderStep(c), steps - 1)
  }

  lemma {:induction false} ReaderProgress(c: Client)
    requires |c.callbackAt| <= |c.inbox| && !c.reader.Stopped? && Unread(c) > 0
    ensures var d := ReaderStep(c);
            !d.reader.Stopped? && d.inbox == c.inbox && |d.callbackAt| <= |d.inbox| && Unread(d) < Unread(c)
  {
  }

  lemma {:induction false} DrainReads(c: Client, steps: nat)
    requires |c.callbackAt| <= |c.inbox| && !c.reader.Stopped? && steps >= Unread(c)
    ensures Drain(c, steps).reader.Idle? && |Drain(c, steps).callbackAt| == |c.inbox| && Drain(c, steps).inbox == c.inbox
    decreases steps
  {
    hide ReaderStep;
    if Unread(c) > 0 {
      ReaderProgress(c);
      DrainReads(ReaderStep(c), steps - 1);
    } else if steps > 0 {
      NothingToRead(c);
      DrainReads(c, steps - 1);
    }
  }

  lemma {:induction false} NothingToRead(c: Client)
    requires |c.callbackAt| <= |c.inbox| && !c.reader.Stopped? && Unread(c) == 0
    ensures ReaderStep(c) == c
  {
  }

  /** A reply read for a call that has not returned is in its channel two steps of the reader later. */
  lemma {:induction false} ReplyDelivered(es: seq<ClientEvent>, i: nat, body: Body)
    requires var c := Runs(es);
             && i < |c.calls| && c.calls[i].id > 0 && !c.calls[i].stage.Returned? && c.calls[i].buf.None?
             && c.reader.Idle? && |c.callbackAt| < |c.inbox| && c.inbox[|c.callbackAt|] == Reply(Some(Number(c.calls[i].id)), body)
    ensures ReaderStep(ReaderStep(Runs(es))).calls[i].buf == Some(body)
  {
    hide Runs, NotesOk, OutboxOk, Read;
    RunsKeep(es);
    var c := Runs(es);
    assert CallOk(c, i);
    assert c.pending[c.calls[i].id] == i;
  }

  /**
   No caller can block the reader: from any state of any run, by its own steps alone, it reads all
   the lines there are, whether or not anyone takes the replies.
   */
  lemma {:induction false} ReaderNeverBlocks(es: seq<ClientEvent>)
    requires !Runs(es).reader.Stopped?
    ensures var c := Runs(es);
            Drain(c, Unread(c)).reader.Idle? && |Drain(c, Unread(c)).callbackAt| == |c.inbox|
  {
    hide Runs, Drain;
    RunsKeep(es);
    DrainReads(Runs(es), Unread(Runs(es)));
  }
}
