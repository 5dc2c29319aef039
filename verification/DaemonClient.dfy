/**
 The daemon's client (internal/daemonclient/client.go): concurrent calls with a pending map and one-
 place reply channels, a reader, a notification dispatcher, cancellation and close. Each event is one
 critical section or one channel operation; an event that is not possible changes nothing.
 */
module DaemonClient {
  import opened Basics
  import opened JsonRpc

  // ---------- state ----------

  /** A notification with the callback it is for. */
  datatype Note = Note(fn: nat, name: string, params: string)

  datatype Verdict = Got(body: Body) | WriteFailed | Cancelled | ErrClosed

  datatype Stage = Checked | Registered | Waiting | SawClosed | Leaving(verdict: Verdict) | Returned(verdict: Verdict)

  /** `id` is 0 until the call is registered; `buf` is its reply channel. */
  datatype Call = Call(name: string, params: string, id: nat, stage: Stage, buf: Option<Body>)

  datatype ReaderState = Idle | HasReply(call: nat, body: Body) | HasNote(note: Note) | Stopped

  datatype Dispatcher = Looking | Calling(note: Note) | Finished

  /**
   `callbackAt[k]` is the callback that was set when line `k` was read; `handed` lists the notifications
   callbacks have been called with; `ready` are the calls whose reply was in their channel at the close.
   */
  datatype Client = Client(
    next: nat, calls: seq<Call>, pending: map<nat, nat>, outbox: seq<Line>,
    inbox: seq<Inbound>, callbackAt: seq<Option<nat>>, reader: ReaderState,
    callback: Option<nat>, queue: seq<Note>, handed: seq<Note>, dispatcher: Dispatcher,
    closed: bool, ready: set<nat>)

  const FRESH := Client(0, [], map[], [], [], [], Idle, None, [], [], Looking, false, {})

  datatype ClientEvent =
    | Begin(name: string, params: string)
    | Register(i: nat)
    | Send(i: nat, ok: bool)
    | Take(i: nat)
    | CancelCall(i: nat)
    | NoticeClosed(i: nat)
    | Decide(i: nat)
    | Leave(i: nat)
    | SetCallback(fn: Option<nat>)
    | Receive(line: Inbound)
    | ReadLine
    | Deposit
    | Enqueue
    | StopReading
    | Close
    | Dispatch
    | CallBack

  // ---------- callers ----------

  function StageOf(c: Client, i: nat): Stage {
    if i < |c.calls| then c.calls[i].stage else Returned(Cancelled)
  }

  function Move(c: Client, i: nat, stage: Stage): Client {
    if i < |c.calls| then c.(calls := c.calls[i := c.calls[i].(stage := stage)]) else c
  }

  function DoBegin(c: Client, name: string, params: string): Client {
    c.(calls := c.calls + [Call(name, params, 0, if c.closed then Returned(ErrClosed) else Checked, None)])
  }

  /** Under `mu`: a new id and a new channel. */
  function DoRegister(c: Client, i: nat): Client {
    if StageOf(c, i).Checked? then
      c.(next := c.next + 1,
         calls := c.calls[i := c.calls[i].(id := c.next + 1, stage := Registered, buf := None)],
         pending := c.pending[c.next + 1 := i])
    else c
  }

  function LineOf(call: Call): Line {
    Message("2.0", Some(Number(call.id)), call.name, call.params)
  }

  /** Under `writeMu`; encoding or writing may fail. */
  function DoSend(c: Client, i: nat, ok: bool): Client {
    if !StageOf(c, i).Registered? then c
    else if ok then Move(c, i, Waiting).(outbox := c.outbox + [LineOf(c.calls[i])])
    else Move(c, i, Leaving(WriteFailed))
  }

  function TakeReply(c: Client, i: nat): Client
    requires i < |c.calls| && c.calls[i].buf.Some?
  {
    c.(calls := c.calls[i := c.calls[i].(stage := Leaving(Got(c.calls[i].buf.value)), buf := None)])
  }

  /** The first `select`, in each of its three cases. */
  function DoTake(c: Client, i: nat): Client {
    if StageOf(c, i).Waiting? && c.calls[i].buf.Some? then TakeReply(c, i) else c
  }

  function DoCancelCall(c: Client, i: nat): Client {
    if StageOf(c, i).Waiting? then Move(c, i, Leaving(Cancelled)) else c
  }

  function DoNoticeClosed(c: Client, i: nat): Client {
    if StageOf(c, i).Waiting? && c.closed then Move(c, i, SawClosed) else c
  }

  /** The second `select`, after the close was seen: a reply in the channel still wins. */
  function DoDecide(c: Client, i: nat): Client {
    if !StageOf(c, i).SawClosed? then c
    else if c.calls[i].buf.Some? then TakeReply(c, i)
    else Move(c, i, Leaving(ErrClosed))
  }

  /** The deferred removal from the pending map. */
  function DoLeave(c: Client, i: nat): Client {
    if StageOf(c, i).Leaving? then Move(c, i, Returned(StageOf(c, i).verdict)).(pending := c.pending - {c.calls[i].id}) else c
  }

  // ---------- the reader ----------

  /** Decoding an id into an unsigned number: null leaves it 0, anything else is an error. */
  function ParseId(id: Option<Id>): Option<nat> {
    match id
    case Some(Number(n)) => Some(n)
    case Some(Null) => Some(0)
    case _ => None
  }

  function DoReadLine(c: Client): Client {
    var k := |c.callbackAt|;
    if !c.reader.Idle? || k >= |c.inbox| then c
    else
      var next := c.(callbackAt := c.callbackAt + [c.callback]);
      match c.inbox[k]
      case Junk => next
      case Notice(name, params) =>
        if c.callback.Some? then next.(reader := HasNote(Note(c.callback.value, name, params))) else next
      case Reply(id, body) =>
        var n := ParseId(id);
        if n.Some? && n.value in c.pending then next.(reader := HasReply(c.pending[n.value], body)) else next
  }

  /** The non-blocking send on the call's channel, which holds one reply. */
  function DoDeposit(c: Client): Client {
    if !c.reader.HasReply? then c
    else
      var i := c.reader.call;
      if i < |c.calls| && c.calls[i].buf.None? then
        c.(reader := Idle, calls := c.calls[i := c.calls[i].(buf := Some(c.reader.body))])
      else c.(reader := Idle)
  }

  function DoEnqueue(c: Client): Client {
    if c.reader.HasNote? then c.(reader := Idle, queue := c.queue + [c.reader.note]) else c
  }

  // ---------- closing, dispatching ----------

  predicate HasReplyWaiting(call: Call) {
    call.buf.Some? && (call.stage.Registered? || call.stage.Waiting? || call.stage.SawClosed?)
  }

  function DoClose(c: Client): Client {
    if c.closed then c
    else c.(closed := true, ready := set i | 0 <= i < |c.calls| && HasReplyWaiting(c.calls[i]))
  }

  /** One look of the dispatcher: take the first notification, return, or wait. */
  function DoDispatch(c: Client): Client {
    if !c.dispatcher.Looking? then c
    else if c.queue != [] then c.(dispatcher := Calling(c.queue[0]), queue := c.queue[1..])
    else if c.closed then c.(dispatcher := Finished)
    else c
  }

  function DoCallBack(c: Client): Client {
    if c.dispatcher.Calling? then c.(dispatcher := Looking, handed := c.handed + [c.dispatcher.note]) else c
  }

  function Next(c: Client, e: ClientEvent): Client {
    match e
    case Begin(name, params) => DoBegin(c, name, params)
    case Register(i) => DoRegister(c, i)
    case Send(i, ok) => DoSend(c, i, ok)
    case Take(i) => DoTake(c, i)
    case CancelCall(i) => DoCancelCall(c, i)
    case NoticeClosed(i) => DoNoticeClosed(c, i)
    case Decide(i) => DoDecide(c, i)
    case Leave(i) => DoLeave(c, i)
    case SetCallback(fn) => c.(callback := fn)
    case Receive(line) => c.(inbox := c.inbox + [line])
    case ReadLine => DoReadLine(c)
    case Deposit => DoDeposit(c)
    case Enqueue => DoEnqueue(c)
    case StopReading => if c.reader.Idle? then c.(reader := Stopped) else c
    case Close => DoClose(c)
    case Dispatch => DoDispatch(c)
    case CallBack => DoCallBack(c)
  }

  function Runs(es: seq<ClientEvent>): Client {
    if es == [] then FRESH else Next(Runs(es[..|es| - 1]), es[|es| - 1])
  }

  // ---------- the invariant ----------

  /** A line that answers the call with this id. */
  predicate Answers(line: Inbound, id: nat, body: Body) {
    line.Reply? && line.body == body && ParseId(line.id) == Some(id)
  }

  /** The body came off the wire for this id. */
  ghost predicate Read(inbox: seq<Inbound>, id: nat, body: Body) {
    exists k :: 0 <= k < |inbox| && Answers(inbox[k], id, body)
  }

  ghost predicate CallOk(c: Client, i: nat)
    requires i < |c.calls|
  {
    var call := c.calls[i];
    && call.id <= c.next
    && (call.id == 0 ==> call.stage.Checked? || call.stage == Returned(ErrClosed))
    && (call.stage.Checked? ==> call.id == 0)
    && (call.id in c.pending <==> call.id > 0 && !call.stage.Returned?)
    && (call.buf.Some? ==> call.id > 0 && Read(c.inbox, call.id, call.buf.value))
    && ((call.stage.Leaving? || call.stage.Returned?) && call.stage.verdict.Got? ==>
          call.id > 0 && Read(c.inbox, call.id, call.stage.verdict.body))
    && (i in c.ready ==>
          HasReplyWaiting(call) || ((call.stage.Leaving? || call.stage.Returned?) && !call.stage.verdict.ErrClosed?))
  }

  ghost predicate CallsOk(c: Client) {
    forall i :: 0 <= i < |c.calls| ==> CallOk(c, i)
  }

  ghost predicate IdsOk(c: Client) {
    && (forall i, j :: 0 <= i < j < |c.calls| && c.calls[i].id == c.calls[j].id ==> c.calls[i].id == 0)
    && (forall id :: id in c.pending ==> id > 0 && c.pending[id] < |c.calls| && c.calls[c.pending[id]].id == id)
    && (forall i :: i in c.ready ==> i < |c.calls|)
  }

  ghost predicate ReaderOk(c: Client) {
    && |c.callbackAt| <= |c.inbox|
    && (c.reader.HasReply? ==>
          && c.reader.call < |c.calls| && c.calls[c.reader.call].id > 0
          && Read(c.inbox, c.calls[c.reader.call].id, c.reader.body))
  }

  /** Every line sent is the request of some call. */
  ghost predicate SentBy(c: Client, line: Line) {
    exists i :: 0 <= i < |c.calls| && c.calls[i].id > 0 && line == LineOf(c.calls[i])
  }

  ghost predicate OutboxOk(c: Client) {
    forall k :: 0 <= k < |c.outbox| ==> SentBy(c, c.outbox[k])
  }

  /** The notifications among the lines read, each with the callback of its time. */
  function NotesOf(lines: seq<Inbound>, callbackAt: seq<Option<nat>>): seq<Note>
    requires |callbackAt| <= |lines|
    decreases |callbackAt|
  {
    if callbackAt == [] then []
    else
      var k := |callbackAt| - 1;
      NotesOf(lines, callbackAt[..k]) +
      if lines[k].Notice? && callbackAt[k].Some? then [Note(callbackAt[k].value, lines[k].name, lines[k].params)] else []
  }

  function InHand(d: Dispatcher): seq<Note> { if d.Calling? then [d.note] else [] }

  function Held(r: ReaderState): seq<Note> { if r.HasNote? then [r.note] else [] }

  /** Nothing read is lost, repeated or out of order on its way to the callbacks. */
  ghost predicate NotesOk(c: Client) {
    |c.callbackAt| <= |c.inbox|
    && NotesOf(c.inbox, c.callbackAt) == c.handed + InHand(c.dispatcher) + c.queue + Held(c.reader)
  }

  ghost predicate ClientInv(c: Client) {
    && CallsOk(c)
    && IdsOk(c)
    && ReaderOk(c)
    && OutboxOk(c)
    && NotesOk(c)
  }
}
