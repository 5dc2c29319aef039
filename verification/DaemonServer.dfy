/**
 One connection of the daemon (serveConn and handle in internal/daemon/server.go): a reader that
 starts at most 32 handlers at a time, handlers that finish in any order, and the responses they
 write, as sections 4 and 5 of the JSON-RPC 2.0 specification ask. Each event is one step of the
 reader or of a handler; an event that is not possible changes nothing. JSON texts are strings.
 */
module DaemonServer {
  import opened Basics
  import opened JsonRpc

  const LIMIT := 32

  const STATUS := "daemon.status"
  const SHUTDOWN := "daemon.shutdown"

  const PARSE_ERROR := -32700
  const INVALID_REQUEST := -32600
  const METHOD_NOT_FOUND := -32601
  const INVALID_PARAMS := -32602
  const INTERNAL_ERROR := -32603

  // ---------- messages ----------

  /** One response line: which line it answers, and what it says. */
  datatype Response = Response(src: nat, id: Id, body: Body)

  datatype Kind = Unreadable | Invalid | Notification | Request

  function KindOf(line: Line): Kind {
    if line.Garbage? then Unreadable
    else if line.version != "2.0" || line.name == "" then Invalid
    else if line.id.None? then Notification
    else Request
  }

  /** The id a response to a line carries. */
  function IdOf(line: Line): Id {
    if line.Garbage? || line.id.None? then Null else line.id.value
  }

  // ---------- handlers ----------

  /** What becomes of a handler's result in `json.Marshal`: a text, an error, or a panic. */
  datatype Value = Text(json: string) | Unencodable | Explosive

  datatype Outcome = Returned(value: Value) | BadParams | Errored | Panicked

  /** What SendResponse is called with. */
  datatype Outgoing = Success(value: Value) | Error(code: int)

  /** The registered methods and what a run of a handler gives; `turn` tells runs apart. */
  datatype Config = Config(methods: set<string>, handler: (string, string, nat) -> Outcome)

  /** What `handle` comes to before it sends anything; None is a panic. */
  function Handle(cfg: Config, name: string, params: string, turn: nat): Option<Outgoing> {
    var outcome := cfg.handler(name, params, turn);
    if name == STATUS then (if outcome.Returned? && outcome.value.Text? then Some(Success(outcome.value)) else None)
    else if name == SHUTDOWN then Some(Success(Text("{\"ok\":true}")))
    else if name !in cfg.methods then Some(Error(METHOD_NOT_FOUND))
    else match outcome
      case Returned(value) => Some(Success(value))
      case BadParams => Some(Error(INVALID_PARAMS))
      case Errored => Some(Error(INTERNAL_ERROR))
      case Panicked => None
  }

  /** What a caller is to be told: the result, the error, or an internal error for a panic in the handler or the encoder. */
  function Respond(cfg: Config, name: string, params: string, turn: nat): Option<Body> {
    match Handle(cfg, name, params, turn)
    case None => Some(Failure(INTERNAL_ERROR))
    case Some(Error(code)) => Some(Failure(code))
    case Some(Success(Text(json))) => Some(Result(json))
    case Some(Success(Explosive)) => Some(Failure(INTERNAL_ERROR))
    case Some(Success(Unencodable)) => None
  }

  /** A handler's goroutine, up to giving its slot back. */
  datatype Flight = Running | Encoding(message: Outgoing) | Writing(body: Body) | Recovering | Done

  datatype Reader = Reading | Waiting(line: nat) | Ended

  /**
   `turns[k]` is the run of a handler that served line `k`; `stop`: the shutdown channel has been closed
   from this connection.
   */
  datatype Conn = Conn(
    inbox: seq<Line>, pos: nat, reader: Reader, flights: map<nat, Flight>, started: set<nat>,
    turns: map<nat, nat>, responses: seq<Response>, cancelled: bool, stop: bool)

  const NEW := Conn([], 0, Reading, map[], {}, map[], [], false, false)

  datatype Event =
    | Arrive(line: Line)
    | Read
    | Admit
    | Cancel
    | GiveUp
    | Hangup
    | Invoke(k: nat, turn: nat)
    | Encode(k: nat)
    | Recover(k: nat)
    | Write(k: nat)
    | Release(k: nat)

  function Answer(c: Conn, k: nat, id: Id, body: Body): Conn {
    c.(responses := c.responses + [Response(k, id, body)])
  }

  /** One turn of the reader, up to the wait for a slot. */
  function DoRead(c: Conn): Conn {
    if !c.reader.Reading? || c.pos >= |c.inbox| then c
    else
      var line := c.inbox[c.pos];
      var next := c.(pos := c.pos + 1);
      match KindOf(line)
      case Unreadable => Answer(next, c.pos, Null, Failure(PARSE_ERROR))
      case Invalid => Answer(next, c.pos, IdOf(line), Failure(INVALID_REQUEST))
      case Notification => next
      case Request => next.(reader := Waiting(c.pos))
  }

  /** A slot of the semaphore is free, and the handler starts. */
  function DoAdmit(c: Conn): Conn {
    if c.reader.Waiting? && |c.flights| < LIMIT then
      c.(reader := Reading, flights := c.flights[c.reader.line := Running], started := c.started + {c.reader.line})
    else c
  }

  /** The context has ended, and a reader waiting for a slot gives up. */
  function DoGiveUp(c: Conn): Conn {
    if c.cancelled && c.reader.Waiting? then c.(reader := Ended) else c
  }

  /** A read fails. */
  function DoHangup(c: Conn): Conn {
    if c.reader.Reading? then c.(reader := Ended) else c
  }

  /** The handler of line `k` is at a point of its run. */
  predicate At(c: Conn, k: nat, flight: Flight) {
    k in c.flights && c.flights[k] == flight && k < |c.inbox| && c.inbox[k].Message?
  }

  function To(c: Conn, k: nat, flight: Flight): Conn {
    c.(flights := c.flights[k := flight])
  }

  /** The handler is called, and returns, fails or panics. */
  function DoInvoke(cfg: Config, c: Conn, k: nat, turn: nat): Conn {
    if !At(c, k, Running) then c
    else
      var message := Handle(cfg, c.inbox[k].name, c.inbox[k].params, turn);
      To(c, k, if message.Some? then Encoding(message.value) else Recovering).(turns := c.turns[k := turn])
  }

  /** `json.Marshal` in WriteMessage: a message that cannot be encoded is logged and dropped. */
  function DoEncode(c: Conn, k: nat): Conn {
    if k !in c.flights || !c.flights[k].Encoding? then c
    else match c.flights[k].message
      case Error(code) => To(c, k, Writing(Failure(code)))
      case Success(Text(json)) => To(c, k, Writing(Result(json)))
      case Success(Unencodable) => To(c, k, Done)
      case Success(Explosive) => To(c, k, Recovering)
  }

  /** The deferred `recover`, which sends an error that always encodes. */
  function DoRecover(c: Conn, k: nat): Conn {
    if At(c, k, Recovering) then To(c, k, Writing(Failure(INTERNAL_ERROR))) else c
  }

  /** The line goes out. */
  function DoWrite(c: Conn, k: nat): Conn {
    if k in c.flights && c.flights[k].Writing? && At(c, k, c.flights[k]) then
      To(Answer(c, k, IdOf(c.inbox[k]), c.flights[k].body), k, Done)
    else c
  }

  /** The handler's goroutine ends; for a shutdown request the server is told to stop first. */
  function DoRelease(c: Conn, k: nat): Conn {
    if At(c, k, Done) then
      c.(flights := c.flights - {k}, stop := c.stop || c.inbox[k].name == SHUTDOWN)
    else c
  }

  function Step(cfg: Config, c: Conn, e: Event): Conn {
    match e
    case Arrive(line) => c.(inbox := c.inbox + [line])
    case Read => DoRead(c)
    case Admit => DoAdmit(c)
    case Cancel => c.(cancelled := true)
    case GiveUp => DoGiveUp(c)
    case Hangup => DoHangup(c)
    case Invoke(k, turn) => DoInvoke(cfg, c, k, turn)
    case Encode(k) => DoEncode(c, k)
    case Recover(k) => DoRecover(c, k)
    case Write(k) => DoWrite(c, k)
    case Release(k) => DoRelease(c, k)
  }

  function Run(cfg: Config, es: seq<Event>): Conn {
    if es == [] then NEW else Step(cfg, Run(cfg, es[..|es| - 1]), es[|es| - 1])
  }

  // ---------- the invariant ----------

  ghost predicate Responded(c: Conn, k: nat) {
    exists j :: 0 <= j < |c.responses| && c.responses[j].src == k
  }

  /** What the run of a handler that served line `k` has the caller told. */
  function Due(cfg: Config, c: Conn, k: nat): Option<Body> {
    if k in c.turns && k < |c.inbox| && c.inbox[k].Message?
    then Respond(cfg, c.inbox[k].name, c.inbox[k].params, c.turns[k]) else None
  }

  /** What the response to a line says. */
  ghost predicate Says(cfg: Config, c: Conn, k: nat, body: Body)
    requires k < |c.inbox|
  {
    match KindOf(c.inbox[k])
    case Unreadable => body == Failure(PARSE_ERROR)
    case Invalid => body == Failure(INVALID_REQUEST)
    case Notification => false
    case Request => Due(cfg, c, k) == Some(body)
  }

  /** A response answers its own line, and only what has been read and, for requests, run. */
  ghost predicate ResponseOk(cfg: Config, c: Conn, a: Response) {
    && a.src < c.pos && a.src < |c.inbox|
    && a.id == IdOf(c.inbox[a.src])
    && Says(cfg, c, a.src, a.body)
    && (KindOf(c.inbox[a.src]).Request? ==> Ran(c, a.src))
  }

  /** The handler for a line has done all it will do. */
  predicate Ran(c: Conn, k: nat) {
    k in c.started && (k in c.flights ==> c.flights[k].Done?)
  }

  ghost predicate ResponsesOk(cfg: Config, c: Conn) {
    && (forall j :: 0 <= j < |c.responses| ==> ResponseOk(cfg, c, c.responses[j]))
    && (forall i, j :: 0 <= i < j < |c.responses| ==> c.responses[i].src != c.responses[j].src)
  }

  /** A line that must have been answered by now. */
  predicate Owed(cfg: Config, c: Conn, k: nat) {
    && k < c.pos && k < |c.inbox|
    && (KindOf(c.inbox[k]).Unreadable? || KindOf(c.inbox[k]).Invalid? || (Ran(c, k) && Due(cfg, c, k).Some?))
  }

  ghost predicate Complete(cfg: Config, c: Conn) {
    forall k :: Owed(cfg, c, k) ==> Responded(c, k)
  }

  /** A handler under way will have the caller told what is due, and nothing else. */
  ghost predicate FlightOk(cfg: Config, c: Conn, k: nat)
    requires k in c.flights
  {
    && (c.flights[k].Running? <==> k !in c.turns)
    && match c.flights[k]
       case Encoding(Error(code)) => Due(cfg, c, k) == Some(Failure(code))
       case Encoding(Success(Text(json))) => Due(cfg, c, k) == Some(Result(json))
       case Encoding(Success(Unencodable)) => Due(cfg, c, k) == None
       case Encoding(Success(Explosive)) => Due(cfg, c, k) == Some(Failure(INTERNAL_ERROR))
       case Writing(body) => Due(cfg, c, k) == Some(body)
       case Recovering => Due(cfg, c, k) == Some(Failure(INTERNAL_ERROR))
       case _ => true
  }

  ghost predicate FlightsOk(cfg: Config, c: Conn) {
    && c.pos <= |c.inbox| && |c.flights| <= LIMIT && c.flights.Keys <= c.started
    && (forall k :: k in c.started ==> k < c.pos && KindOf(c.inbox[k]).Request?)
    && (forall k :: k in c.flights ==> FlightOk(cfg, c, k))
    && (forall k :: k in c.started && k !in c.flights ==> k in c.turns)
    && c.turns.Keys <= c.started
    && (c.reader.Waiting? ==> c.reader.line < c.pos && c.reader.line !in c.started && KindOf(c.inbox[c.reader.line]).Request?)
  }

  /** A shutdown request whose handler has ended. */
  ghost predicate EndedShutdown(c: Conn, k: nat) {
    k in c.started && k !in c.flights && k < |c.inbox| && c.inbox[k].Message? && c.inbox[k].name == SHUTDOWN
  }

  ghost predicate StopOk(c: Conn) {
    c.stop <==> exists k: nat :: EndedShutdown(c, k)
  }

  ghost predicate Core(cfg: Config, c: Conn) {
    && FlightsOk(cfg, c)
    && ResponsesOk(cfg, c)
    && Complete(cfg, c)
  }

  ghost predicate Inv(cfg: Config, c: Conn) {
    Core(cfg, c) && StopOk(c)
  }
}
