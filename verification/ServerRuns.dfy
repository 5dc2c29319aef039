/** Every run of a connection: who is answered, how often and with what. */
module ServerRuns {
  import opened Basics
  import opened JsonRpc
  import opened DaemonServer

  // ---------- every step keeps it ----------

  /** A run of a handler, once recorded, stays. */
  ghost predicate TurnsGrow(c: Conn, d: Conn) {
    forall k :: k in c.turns ==> k in d.turns && d.turns[k] == c.turns[k]
  }

  lemma {:induction false} ResponseStays(cfg: Config, c: Conn, d: Conn, a: Response)
    requires ResponseOk(cfg, c, a)
    requires c.inbox <= d.inbox && c.pos <= d.pos && TurnsGrow(c, d) && (Ran(c, a.src) ==> Ran(d, a.src))
    ensures ResponseOk(cfg, d, a)
  {
    hide Respond;
  }

  /** Nothing is answered in the step, and nothing new is owed. */
  lemma {:induction false} NoNewResponse(cfg: Config, c: Conn, d: Conn)
    requires ResponsesOk(cfg, c) && Complete(cfg, c)
    requires d.responses == c.responses && c.inbox <= d.inbox && c.pos <= d.pos && TurnsGrow(c, d)
    requires c.started <= d.started
    requires forall k :: Ran(c, k) ==> Ran(d, k)
    requires forall k :: Owed(cfg, d, k) ==> Owed(cfg, c, k)
    ensures ResponsesOk(cfg, d) && Complete(cfg, d)
  {
    hide Owed, ResponseOk, TurnsGrow;
    forall j | 0 <= j < |d.responses| ensures ResponseOk(cfg, d, d.responses[j]) {
      ResponseStays(cfg, c, d, c.responses[j]);
    }
    forall k | Owed(cfg, d, k) ensures Responded(d, k) {
      assert Owed(cfg, c, k) && Responded(c, k);
    }
  }

  lemma {:induction false} RespondedGrows(c: Conn, d: Conn, i: nat, a: Response)
    requires d.responses == c.responses + [a]
    ensures Responded(c, i) || i == a.src ==> Responded(d, i)
  {
    if Responded(c, i) {
      var j :| 0 <= j < |c.responses| && c.responses[j].src == i;
      assert d.responses[j].src == i;
    }
    assert d.responses[|c.responses|] == a;
  }

  /** One line gets its response in the step. */
  lemma {:induction false} NewResponse(cfg: Config, c: Conn, d: Conn, a: Response)
    requires ResponsesOk(cfg, c) && Complete(cfg, c)
    requires d.responses == c.responses + [a] && !Responded(c, a.src) && ResponseOk(cfg, d, a)
    requires d.inbox == c.inbox && c.pos <= d.pos && c.started == d.started && d.turns == c.turns
    requires forall i :: Ran(c, i) ==> Ran(d, i)
    requires forall i :: Owed(cfg, d, i) && i != a.src ==> Owed(cfg, c, i)
    ensures ResponsesOk(cfg, d) && Complete(cfg, d)
  {
    hide Owed, ResponseOk;
    forall j | 0 <= j < |d.responses| ensures ResponseOk(cfg, d, d.responses[j]) {
      if j < |c.responses| { ResponseStays(cfg, c, d, c.responses[j]); }
    }
    forall i | Owed(cfg, d, i) ensures Responded(d, i) {
      RespondedGrows(c, d, i, a);
    }
  }

  /** A line not read yet, or whose handler is still at work, has had no response. */
  lemma {:induction false} NotYet(cfg: Config, c: Conn, k: nat)
    requires ResponsesOk(cfg, c)
    requires k >= c.pos || (k < |c.inbox| && KindOf(c.inbox[k]).Request? && !Ran(c, k))
    ensures !Responded(c, k)
  {
    forall j | 0 <= j < |c.responses| ensures c.responses[j].src != k {
      assert ResponseOk(cfg, c, c.responses[j]);
    }
  }

  /** The handlers under way stay as they are when nothing of theirs changes. */
  lemma {:induction false} FlightStays(cfg: Config, c: Conn, d: Conn, k: nat)
    requires k in c.flights && FlightOk(cfg, c, k) && k in d.flights && d.flights[k] == c.flights[k]
    requires c.inbox <= d.inbox && (k in d.turns <==> k in c.turns) && (k in c.turns ==> d.turns[k] == c.turns[k])
    requires k < |c.inbox|
    ensures FlightOk(cfg, d, k)
  {
    hide Respond;
  }

  lemma {:induction false} FlightsStay(cfg: Config, c: Conn, d: Conn)
    requires FlightsOk(cfg, c) && (d.flights, d.started, d.turns) == (c.flights, c.started, c.turns)
    requires c.inbox <= d.inbox && c.pos <= d.pos <= |d.inbox|
    requires d.reader.Waiting? ==> d.reader.line < d.pos && d.reader.line !in d.started && KindOf(d.inbox[d.reader.line]).Request?
    ensures FlightsOk(cfg, d)
  {
    hide FlightOk;
    forall k | k in d.flights ensures FlightOk(cfg, d, k) { FlightStays(cfg, c, d, k); }
  }

  lemma {:induction false} ReaderFacts(cfg: Config, c: Conn)
    requires FlightsOk(cfg, c)
    ensures c.pos <= |c.inbox| && c.pos !in c.started && c.flights.Keys <= c.started && c.turns.Keys <= c.started
    ensures c.reader.Waiting? ==> c.reader.line < c.pos && c.reader.line !in c.started && KindOf(c.inbox[c.reader.line]).Request?
    ensures forall k :: k in c.started ==> k < c.pos
  {
  }

  lemma {:induction false} ReadKeeps(cfg: Config, c: Conn)
    requires Core(cfg, c) && c.reader.Reading? && c.pos < |c.inbox|
    ensures ResponsesOk(cfg, DoRead(c)) && Complete(cfg, DoRead(c))
  {
    hide ResponsesOk, Complete, Respond, FlightsOk;
    ReaderFacts(cfg, c);
    var d, kind := DoRead(c), KindOf(c.inbox[c.pos]);
    if kind.Unreadable? || kind.Invalid? {
      NotYet(cfg, c, c.pos);
      NewResponse(cfg, c, d, d.responses[|c.responses|]);
    } else {
      NoNewResponse(cfg, c, d);
    }
  }

  lemma {:induction false} KeepsRead(cfg: Config, c: Conn)
    requires Core(cfg, c)
    ensures Core(cfg, DoRead(c))
  {
    hide ResponsesOk, Complete, FlightsOk;
    if c.reader.Reading? && c.pos < |c.inbox| {
      ReadKeeps(cfg, c);
      ReaderFacts(cfg, c);
      FlightsStay(cfg, c, DoRead(c));
    }
  }

  /** One handler moves on, and the others stay. */
  lemma {:induction false} OneMoves(cfg: Config, c: Conn, d: Conn, k: nat)
    requires FlightsOk(cfg, c) && k in c.flights && k in d.flights && FlightOk(cfg, d, k)
    requires d.flights == c.flights[k := d.flights[k]] && d.started == c.started
    requires d.turns == c.turns || (k in d.turns && d.turns == c.turns[k := d.turns[k]])
    requires d.inbox == c.inbox && d.pos == c.pos && d.reader == c.reader
    ensures FlightsOk(cfg, d)
  {
    hide FlightOk;
    assert d.flights.Keys == c.flights.Keys;
    SameSize(c.flights, d.flights);
    forall i | i in d.flights ensures FlightOk(cfg, d, i) {
      if i != k { FlightStays(cfg, c, d, i); }
    }
  }

  lemma {:induction false} SameSize(a: map<nat, Flight>, b: map<nat, Flight>)
    requires a.Keys == b.Keys
    ensures |a| == |b|
  {
    assert |a| == |a.Keys| && |b| == |b.Keys|;
  }

  /** The handler's steps up to the line it writes. */
  lemma {:induction false} KeepsHandler(cfg: Config, c: Conn, e: Event, k: nat)
    requires Core(cfg, c) && ((e.Invoke? && e.k == k) || e == Encode(k) || e == Recover(k))
    ensures Core(cfg, Step(cfg, c, e))
  {
    hide ResponsesOk, Complete, FlightsOk;
    var d := Step(cfg, c, e);
    if d != c {
      FlightFacts(cfg, c, k);
      OneMoves(cfg, c, d, k);
      NoNewResponse(cfg, c, d);
    }
  }

  lemma {:induction false} FlightFacts(cfg: Config, c: Conn, k: nat)
    requires FlightsOk(cfg, c) && k in c.flights
    ensures FlightOk(cfg, c, k) && k in c.started && k < c.pos <= |c.inbox| && KindOf(c.inbox[k]).Request?
  {
  }

  lemma {:induction false} KeepsWrite(cfg: Config, c: Conn, k: nat)
    requires Core(cfg, c)
    ensures Core(cfg, DoWrite(c, k))
  {
    hide ResponsesOk, Complete, FlightsOk, Respond;
    var d := DoWrite(c, k);
    if d != c {
      FlightFacts(cfg, c, k);
      NotYet(cfg, c, k);
      OneMoves(cfg, c, d, k);
      NewResponse(cfg, c, d, d.responses[|c.responses|]);
    }
  }

  lemma {:induction false} ReleaseFlights(cfg: Config, c: Conn, k: nat)
    requires FlightsOk(cfg, c)
    ensures FlightsOk(cfg, DoRelease(c, k))
  {
    hide FlightOk;
    var d := DoRelease(c, k);
    if d != c {
      assert k in c.turns by { assert FlightOk(cfg, c, k); Turned(cfg, c, k); }
      forall i | i in d.flights ensures FlightOk(cfg, d, i) { FlightStays(cfg, c, d, i); }
    }
  }

  lemma {:induction false} Turned(cfg: Config, c: Conn, k: nat)
    requires k in c.flights && FlightOk(cfg, c, k) && !c.flights[k].Running?
    ensures k in c.turns
  {
  }

  lemma {:induction false} KeepsRelease(cfg: Config, c: Conn, k: nat)
    requires Core(cfg, c)
    ensures Core(cfg, DoRelease(c, k))
  {
    hide ResponsesOk, Complete, FlightsOk, Respond;
    ReleaseFlights(cfg, c, k);
    if DoRelease(c, k) != c {
      FlightFacts(cfg, c, k);
      NoNewResponse(cfg, c, DoRelease(c, k));
    }
  }

  /** The other steps that answer nothing. */
  lemma {:induction false} KeepsQuiet(cfg: Config, c: Conn, e: Event)
    requires Core(cfg, c) && (e.Arrive? || e.Cancel? || e.GiveUp? || e.Hangup?)
    ensures Core(cfg, Step(cfg, c, e))
  {
    hide ResponsesOk, Complete, FlightsOk, Respond;
    var d := Step(cfg, c, e);
    ReaderFacts(cfg, c);
    FlightsStay(cfg, c, d);
    NoNewResponse(cfg, c, d);
  }

  lemma {:induction false} AdmitFlights(cfg: Config, c: Conn)
    requires FlightsOk(cfg, c)
    ensures FlightsOk(cfg, DoAdmit(c))
  {
    hide FlightOk;
    var d := DoAdmit(c);
    if d != c {
      forall k | k in d.flights ensures FlightOk(cfg, d, k) {
        if k != c.reader.line { FlightStays(cfg, c, d, k); } else { Fresh(cfg, d, k); }
      }
    }
  }

  lemma {:induction false} Fresh(cfg: Config, c: Conn, k: nat)
    requires k in c.flights && c.flights[k].Running? && k !in c.turns
    ensures FlightOk(cfg, c, k)
  {
  }

  lemma {:induction false} KeepsAdmit(cfg: Config, c: Conn)
    requires Core(cfg, c)
    ensures Core(cfg, DoAdmit(c))
  {
    hide ResponsesOk, Complete, FlightsOk, Respond;
    ReaderFacts(cfg, c);
    AdmitFlights(cfg, c);
    NoNewResponse(cfg, c, DoAdmit(c));
  }

  /** A step that ends no handler leaves the ended ones as they are. */
  lemma {:induction false} StopSame(cfg: Config, c: Conn, d: Conn)
    requires FlightsOk(cfg, c) && StopOk(c) && d.stop == c.stop && c.inbox <= d.inbox
    requires forall k :: k in d.started && k !in d.flights <==> k in c.started && k !in c.flights
    ensures StopOk(d)
  {
    hide FlightOk;
    forall k | EndedShutdown(d, k) ensures EndedShutdown(c, k) {}
    forall k | EndedShutdown(c, k) ensures EndedShutdown(d, k) {}
  }

  lemma {:induction false} ReleaseStop(cfg: Config, c: Conn, k: nat)
    requires FlightsOk(cfg, c) && StopOk(c)
    ensures StopOk(DoRelease(c, k))
  {
    hide FlightOk;
    var d := DoRelease(c, k);
    if d != c {
      forall i | EndedShutdown(c, i) ensures EndedShutdown(d, i) {}
      if c.inbox[k].name == SHUTDOWN {
        assert EndedShutdown(d, k);
      } else {
        forall i | EndedShutdown(d, i) ensures EndedShutdown(c, i) {}
      }
    }
  }

  lemma {:induction false} StepStop(cfg: Config, c: Conn, e: Event)
    requires FlightsOk(cfg, c) && StopOk(c)
    ensures StopOk(Step(cfg, c, e))
  {
    hide StopOk, FlightsOk, Handle, KindOf, IdOf;
    ReaderFacts(cfg, c);
    if e.Release? {
      ReleaseStop(cfg, c, e.k);
    } else {
      StopSame(cfg, c, Step(cfg, c, e));
    }
  }

  lemma {:induction false} CoreFlights(cfg: Config, c: Conn)
    requires Core(cfg, c)
    ensures FlightsOk(cfg, c)
  {
  }

  lemma {:induction false} StepKeeps(cfg: Config, c: Conn, e: Event)
    requires Inv(cfg, c)
    ensures Inv(cfg, Step(cfg, c, e))
  {
    hide Core, StopOk;
    assert FlightsOk(cfg, c) by { CoreFlights(cfg, c); }
    StepStop(cfg, c, e);
    match e
    case Read => KeepsRead(cfg, c);
    case Admit => KeepsAdmit(cfg, c);
    case Invoke(k, turn) => KeepsHandler(cfg, c, e, k);
    case Encode(k) => KeepsHandler(cfg, c, e, k);
    case Recover(k) => KeepsHandler(cfg, c, e, k);
    case Write(k) => KeepsWrite(cfg, c, k);
    case Release(k) => KeepsRelease(cfg, c, k);
    case _ => KeepsQuiet(cfg, c, e);
  }

  lemma {:induction false} RunKeeps(cfg: Config, es: seq<Event>)
    ensures Inv(cfg, Run(cfg, es))
  {
    hide Step;
    if es != [] {
      RunKeeps(cfg, es[..|es| - 1]);
      StepKeeps(cfg, Run(cfg, es[..|es| - 1]), es[|es| - 1]);
    }
  }

  // ---------- what every run promises ----------

  /** There is exactly one response to line `k`, and it is `id` and `body`. */
  ghost predicate ExactlyOne(c: Conn, k: nat, id: Id, body: Body) {
    exists j :: 0 <= j < |c.responses| && c.responses[j] == Response(k, id, body)
                && forall i :: 0 <= i < |c.responses| && c.responses[i].src == k ==> i == j
  }

  lemma {:induction false} FoundOnce(cfg: Config, c: Conn, k: nat) returns (body: Body)
    requires Inv(cfg, c) && Responded(c, k)
    ensures k < |c.inbox| && Says(cfg, c, k, body) && ExactlyOne(c, k, IdOf(c.inbox[k]), body)
  {
    hide FlightsOk, Complete, StopOk;
    var j :| 0 <= j < |c.responses| && c.responses[j].src == k;
    assert ResponseOk(cfg, c, c.responses[j]);
    body := c.responses[j].body;
    assert c.responses[j] == Response(k, IdOf(c.inbox[k]), body);
  }

  /** No line, whatever it is, ever has two responses. */
  lemma {:induction false} AtMostOneResponse(cfg: Config, es: seq<Event>, i: nat, j: nat)
    requires i < j < |Run(cfg, es).responses|
    ensures Run(cfg, es).responses[i].src != Run(cfg, es).responses[j].src
  {
    hide Run, FlightsOk, Complete, StopOk;
    RunKeeps(cfg, es);
  }

  /**
   What one run of a handler has its caller told, and None when that is nothing: the result of a registered
   method that can be encoded, and otherwise the error of section 5.1 of the JSON-RPC 2.0 specification.
   */
  ghost predicate Tells(cfg: Config, name: string, params: string, turn: nat, told: Option<Body>) {
    var outcome := cfg.handler(name, params, turn);
    if name == "daemon.shutdown" then told == Some(Result("{\"ok\":true}"))
    else if name == "daemon.status" then
      && (forall json :: told == Some(Result(json)) <==> outcome == Returned(Text(json)))
      && (told == Some(Failure(-32603)) <==> !(outcome.Returned? && outcome.value.Text?))
    else
      && (told == Some(Failure(-32601)) <==> name !in cfg.methods)
      && (forall json :: told == Some(Result(json)) <==> name in cfg.methods && outcome == Returned(Text(json)))
      && (told == Some(Failure(-32602)) <==> name in cfg.methods && outcome == BadParams)
      && (told == Some(Failure(-32603)) <==>
            name in cfg.methods && (outcome == Errored || outcome == Panicked || outcome == Returned(Explosive)))
      && (told == None <==> name in cfg.methods && outcome == Returned(Unencodable))
  }

  lemma {:induction false} RespondTells(cfg: Config, name: string, params: string, turn: nat)
    ensures Tells(cfg, name, params, turn, Respond(cfg, name, params, turn))
  {
  }

  /** The line is a request: a message of the right version with a method and an id. */
  predicate Asks(line: Line) {
    line.Message? && line.version == "2.0" && line.name != "" && line.id.Some?
  }

  /** A request whose handler is done has the one response its run of the handler has it told, or none if none is. */
  ghost predicate Settled(cfg: Config, c: Conn, k: nat) {
    && k < |c.inbox| && Asks(c.inbox[k]) && k in c.turns
    && exists told :: Tells(cfg, c.inbox[k].name, c.inbox[k].params, c.turns[k], told)
                      && if told.Some? then ExactlyOne(c, k, c.inbox[k].id.value, told.value) else !Responded(c, k)
  }

  lemma {:induction false} RanIsSettled(cfg: Config, c: Conn, k: nat)
    requires Inv(cfg, c) && Ran(c, k)
    ensures Settled(cfg, c, k)
  {
    hide StopOk, ExactlyOne, Respond, Tells;
    if k in c.flights { FlightFacts(cfg, c, k); }
    if Due(cfg, c, k).Some? { assert Owed(cfg, c, k); }
    if Responded(c, k) {
      var body := FoundOnce(cfg, c, k);
    }
    RespondTells(cfg, c.inbox[k].name, c.inbox[k].params, c.turns[k]);
  }

  /**
   A started request has no response while its handler is at work. Once it is done there was one run of
   the handler, and the request has exactly one response, with its own id and what that run has it told, or
   none if the result of the run cannot be encoded.
   */
  lemma {:induction false} OneResponse(cfg: Config, es: seq<Event>, k: nat)
    requires k in Run(cfg, es).started
    ensures var c := Run(cfg, es); if k in c.flights && !c.flights[k].Done? then !Responded(c, k) else Settled(cfg, c, k)
  {
    hide Run, StopOk, Settled, Respond;
    RunKeeps(cfg, es);
    if Ran(Run(cfg, es), k) {
      RanIsSettled(cfg, Run(cfg, es), k);
    } else {
      NotYet(cfg, Run(cfg, es), k);
    }
  }

  /** Only the reader starts handlers, only their end takes them away, and a reader that has ended stays so. */
  lemma {:induction false} ConnMoves(cfg: Config, c: Conn, e: Event)
    ensures var d := Step(cfg, c, e);
            && (!e.Admit? ==> d.started == c.started && forall k :: k in d.flights ==> k in c.flights)
            && (!e.Admit? && !e.Release? ==> forall k :: k in d.flights <==> k in c.flights)
            && (c.reader.Ended? ==> d.reader.Ended?)
  {
  }

  lemma {:induction false} RunSnoc(cfg: Config, es: seq<Event>, e: Event)
    ensures Run(cfg, es + [e]) == Step(cfg, Run(cfg, es), e)
  {
    assert (es + [e])[..|es|] == es;
  }

  // ---------- handlers and the reader go on ----------

  predicate Own(e: Event, k: nat) {
    (e.Invoke? || e.Encode? || e.Recover? || e.Write? || e.Release?) && e.k == k
  }

  function Owned(fs: seq<Event>, k: nat): nat {
    if fs == [] then 0 else Owned(fs[..|fs| - 1], k) + if Own(fs[|fs| - 1], k) then 1 else 0
  }

  /** The step that comes next in a handler. */
  predicate Next(c: Conn, e: Event, k: nat) {
    && k in c.flights
    && match c.flights[k]
       case Running => e.Invoke? && e.k == k
       case Encoding(_) => e == Encode(k)
       case Recovering => e == Recover(k)
       case Writing(_) => e == Write(k)
       case Done => e == Release(k)
  }

  /** How many more steps a handler takes at most. */
  function StepsLeft(f: Flight): nat {
    match f
    case Running => 6
    case Encoding(_) => 5
    case Recovering => 3
    case Writing(_) => 2
    case Done => 1
  }

  ghost predicate InTurn(cfg: Config, es: seq<Event>, fs: seq<Event>, k: nat) {
    forall j :: 0 <= j < |fs| && Own(fs[j], k) ==> Next(Run(cfg, es + fs[..j]), fs[j], k)
  }

  lemma {:induction false} NextStep(cfg: Config, c: Conn, e: Event, k: nat)
    requires FlightsOk(cfg, c) && Next(c, e, k)
    ensures k in c.flights
    ensures var d := Step(cfg, c, e);
            && k in d.started
            && (k in d.flights ==> StepsLeft(d.flights[k]) < StepsLeft(c.flights[k]))
            && (k !in d.flights <==> c.flights[k].Done?)
  {
    hide Handle;
    FlightFacts(cfg, c, k);
  }

  ghost predicate Untouched(c: Conn, d: Conn, k: nat) {
    && k in d.started && (k in d.flights <==> k in c.flights)
    && (k in c.flights ==> d.flights[k] == c.flights[k])
  }

  lemma {:induction false} OtherHandlers(cfg: Config, c: Conn, e: Event, k: nat)
    requires k in c.started && !Own(e, k) && (e.Invoke? || e.Encode? || e.Recover? || e.Write? || e.Release?)
    ensures Untouched(c, Step(cfg, c, e), k)
  {
    hide Handle, IdOf;
  }

  lemma {:induction false} OthersStep(cfg: Config, c: Conn, e: Event, k: nat)
    requires FlightsOk(cfg, c) && k in c.started && !Own(e, k)
    ensures Untouched(c, Step(cfg, c, e), k)
  {
    hide FlightsOk, KindOf, IdOf, DoInvoke, DoEncode, DoRecover, DoWrite, DoRelease;
    if e.Invoke? || e.Encode? || e.Recover? || e.Write? || e.Release? {
      OtherHandlers(cfg, c, e, k);
    } else {
      ReaderFacts(cfg, c);
    }
  }

  /**
   A handler that is under way goes on whatever the reader and the other handlers do: as long as it is not
   over, each of its own steps brings it nearer to its end, and when it is over its request is settled.
   */
  lemma {:induction false} HandlerEnds(cfg: Config, es: seq<Event>, fs: seq<Event>, k: nat)
    requires k in Run(cfg, es).flights && InTurn(cfg, es, fs, k)
    ensures var d := Run(cfg, es + fs);
            if k in d.flights then StepsLeft(d.flights[k]) + Owned(fs, k) <= StepsLeft(Run(cfg, es).flights[k])
            else k in d.started && Settled(cfg, d, k)
    decreases |fs|
  {
    hide Step, Next, Settled, Core;
    RunKeeps(cfg, es + fs);
    StaysStarted(cfg, es, fs, k);
    if fs == [] {
      assert es + fs == es;
    } else if k !in Run(cfg, es + fs).flights {
      RanIsSettled(cfg, Run(cfg, es + fs), k);
    } else {
      var n := |fs| - 1;
      var c, e := Run(cfg, es + fs[..n]), fs[n];
      InTurnBefore(cfg, es, fs, k);
      HandlerEnds(cfg, es, fs[..n], k);
      StaysStarted(cfg, es, fs[..n], k);
      RunKeeps(cfg, es + fs[..n]);
      CoreFlights(cfg, c);
      assert es + fs == es + fs[..n] + [e];
      RunSnoc(cfg, es + fs[..n], e);
      if Own(e, k) { NextStep(cfg, c, e, k); } else { OthersStep(cfg, c, e, k); }
    }
  }

  lemma {:induction false} InTurnBefore(cfg: Config, es: seq<Event>, fs: seq<Event>, k: nat)
    requires InTurn(cfg, es, fs, k) && fs != []
    ensures InTurn(cfg, es, fs[..|fs| - 1], k)
  {
    hide Run, Next;
    var init := fs[..|fs| - 1];
    forall j | 0 <= j < |init| && Own(init[j], k) ensures Next(Run(cfg, es + init[..j]), init[j], k) {
      assert init[..j] == fs[..j];
    }
  }

  lemma {:induction false} StaysStarted(cfg: Config, es: seq<Event>, fs: seq<Event>, k: nat)
    requires k in Run(cfg, es).flights
    ensures k in Run(cfg, es + fs).started
    decreases |fs|
  {
    hide Step;
    RunKeeps(cfg, es);
    if fs == [] {
      assert es + fs == es;
    } else {
      var n := |fs| - 1;
      StaysStarted(cfg, es, fs[..n], k);
      assert es + fs == es + fs[..n] + [fs[n]];
      RunSnoc(cfg, es + fs[..n], fs[n]);
      OnceStarted(cfg, Run(cfg, es + fs[..n]), fs[n]);
    }
  }

  lemma {:induction false} OnceStarted(cfg: Config, c: Conn, e: Event)
    ensures c.started <= Step(cfg, c, e).started
  {
    hide Handle, KindOf;
  }

  /**
   The reader takes up every request: it reads the next line, a request waits for a slot as long as the
   context lives, and while fewer than 32 handlers are under way its handler is started.
   */
  lemma {:induction false} RequestStarts(cfg: Config, es: seq<Event>, e: Event)
    ensures var c := Run(cfg, es);
            && (c.reader.Reading? && c.pos < |c.inbox| && Asks(c.inbox[c.pos]) ==> Run(cfg, es + [Read]).reader == Waiting(c.pos))
            && (c.reader.Reading? && c.pos < |c.inbox| ==> Run(cfg, es + [Read]).pos == c.pos + 1)
            && (c.reader.Waiting? && |c.flights| < 32 ==>
                  c.reader.line in Run(cfg, es + [Admit]).flights && Run(cfg, es + [Admit]).reader.Reading?)
            && (c.reader.Waiting? && !c.cancelled && Run(cfg, es + [e]).reader != c.reader ==> e.Admit?)
  {
    hide Run, Handle;
    RunSnoc(cfg, es, Read);
    RunSnoc(cfg, es, Admit);
    RunSnoc(cfg, es, e);
  }

  lemma {:induction false} UnencodableEnds(cfg: Config, c: Conn, turn: nat)
    requires At(c, 0, Running) && c.flights == map[0 := Running]
    requires Handle(cfg, c.inbox[0].name, c.inbox[0].params, turn) == Some(Success(Unencodable))
    ensures var d := Step(cfg, Step(cfg, Step(cfg, c, Invoke(0, turn)), Encode(0)), Release(0));
            d.inbox == c.inbox && d.started == c.started && d.flights == map[] && d.responses == c.responses
  {
    hide Handle;
    var a := DoInvoke(cfg, c, 0, turn);
    assert a.flights == map[0 := Encoding(Success(Unencodable))];
    var b := DoEncode(a, 0);
    assert b.flights == map[0 := Done];
  }

  /** A handler whose result cannot be encoded is over, its slot given back, and its caller has no reply. */
  lemma {:induction false} UnencodableGetsNoReply(cfg: Config, name: string, params: string, turn: nat) returns (es: seq<Event>)
    requires name in cfg.methods && name != "" && name != STATUS && name != SHUTDOWN
    requires cfg.handler(name, params, turn) == Returned(Unencodable)
    ensures var c := Run(cfg, es);
            && c.inbox == [Line.Message("2.0", Some(Number(1)), name, params)]
            && c.started == {0} && c.flights == map[] && !Responded(c, 0)
  {
    assert Run(cfg, []) == NEW;
    hide Run;
    var line := Line.Message("2.0", Some(Number(1)), name, params);
    var taken := NEW.(inbox := [line], pos := 1);
    var s1 := [Arrive(line)];
    var s2, s3 := s1 + [Read], s1 + [Read] + [Admit];
    var s4, s5 := s3 + [Invoke(0, turn)], s3 + [Invoke(0, turn)] + [Encode(0)];
    es := s5 + [Release(0)];
    RunSnoc(cfg, [], Arrive(line));
    assert [] + [Arrive(line)] == s1;
    RunSnoc(cfg, s1, Read);
    assert Run(cfg, s2) == taken.(reader := Waiting(0));
    RunSnoc(cfg, s2, Admit);
    var begun := taken.(flights := map[0 := Running], started := {0});
    assert Run(cfg, s3) == begun;
    RunSnoc(cfg, s3, Invoke(0, turn));
    RunSnoc(cfg, s4, Encode(0));
    RunSnoc(cfg, s5, Release(0));
    UnencodableEnds(cfg, begun, turn);
  }

  /** A well-formed notification is never answered. */
  lemma {:induction false} NotificationsSilent(cfg: Config, es: seq<Event>, k: nat)
    requires k < |Run(cfg, es).inbox| && Run(cfg, es).inbox[k].Message? && Run(cfg, es).inbox[k].version == "2.0"
    requires Run(cfg, es).inbox[k].name != "" && Run(cfg, es).inbox[k].id.None?
    ensures !Responded(Run(cfg, es), k)
  {
    hide Run;
    RunKeeps(cfg, es);
    var c := Run(cfg, es);
    forall j | 0 <= j < |c.responses| ensures c.responses[j].src != k {
      assert ResponseOk(cfg, c, c.responses[j]);
    }
  }

  /** Every line read that is no request at all is answered once, with the error it deserves. */
  lemma {:induction false} BadLinesAnswered(cfg: Config, es: seq<Event>, k: nat)
    requires k < Run(cfg, es).pos && k < |Run(cfg, es).inbox|
    ensures var c, line := Run(cfg, es), Run(cfg, es).inbox[k];
            && (line.Garbage? ==> ExactlyOne(c, k, Null, Failure(-32700)))
            && (line.Message? && (line.version != "2.0" || line.name == "") ==>
                  ExactlyOne(c, k, if line.id.Some? then line.id.value else Null, Failure(-32600)))
  {
    hide Run, StopOk, ExactlyOne;
    RunKeeps(cfg, es);
    var c := Run(cfg, es);
    if KindOf(c.inbox[k]).Unreadable? || KindOf(c.inbox[k]).Invalid? {
      assert Owed(cfg, c, k);
      var body := FoundOnce(cfg, c, k);
    }
  }

  /** At most 32 started handlers are in flight. */
  lemma {:induction false} FlightsBounded(cfg: Config, es: seq<Event>)
    ensures |Run(cfg, es).flights| <= 32 && Run(cfg, es).flights.Keys <= Run(cfg, es).started
  {
    hide Run;
    RunKeeps(cfg, es);
  }

  /** The server is told to stop exactly when a shutdown request has had its response and its handler has ended. */
  lemma {:induction false} StopAfterReply(cfg: Config, es: seq<Event>)
    ensures var c := Run(cfg, es);
            c.stop <==> exists k: nat :: k in c.started && k !in c.flights && k < |c.inbox| && c.inbox[k].Message?
                                    && c.inbox[k].name == "daemon.shutdown" && Responded(c, k)
  {
    hide Run, FlightOk, ResponsesOk;
    RunKeeps(cfg, es);
    var c := Run(cfg, es);
    if c.stop {
      var k: nat :| EndedShutdown(c, k);
      assert Owed(cfg, c, k);
      assert k in c.started && c.inbox[k].name == "daemon.shutdown" && Responded(c, k);
    }
    forall k: nat | k in c.started && k !in c.flights && k < |c.inbox| && c.inbox[k].Message? && c.inbox[k].name == "daemon.shutdown"
      ensures c.stop
    {
      assert EndedShutdown(c, k);
    }
  }
}
