/**
 The daemon as a whole (internal/daemon/server.go): the accept loop, the drain and the wait groups
 together with every connection's reader, handlers and responses. Each event is one step of one
 goroutine; an event that is not possible changes nothing.
 */
module Daemon {
  import D = Drain
  import S = DaemonServer

  /** `owner[h]` is the connection and the line that handler `h` was started for. */
  datatype State = State(drain: D.State, conns: seq<S.Conn>, owner: seq<(nat, nat)>)

  const NEW := State(D.NEW, [], [])

  datatype Event =
    | Around(around: D.Event)
    | AtConn(c: nat, move: S.Event)
    | StartHandler(c: nat)
    | EndHandler(h: nat)
    | EndLoop(c: nat)

  /** A step outside the connection loops: `accept`, `serve`, the drain, or the end of a connection. */
  function DoAround(s: State, e: D.Event): State {
    if e.AddHandler? || e.Launch? || e.EndLoop? || e.HandlerDone? then s
    else
      var drain := D.Step(s.drain, e);
      s.(drain := drain, conns := if |drain.phases| > |s.drain.phases| then s.conns + [S.NEW] else s.conns)
  }

  /** A step of a connection's reader, once its loop runs, or of one of its handlers. */
  function DoAtConn(cfg: S.Config, s: State, c: nat, e: S.Event): State {
    if c >= |s.conns| || e.Admit? || e.Release? then s
    else if (e.Read? || e.GiveUp? || e.Hangup?) && !D.PhaseOf(s.drain, c).Looping? then s
    else s.(conns := s.conns[c := S.Step(cfg, s.conns[c], e)])
  }

  /** A slot is free: the handler is counted in the wait group and started. */
  function DoStartHandler(cfg: S.Config, s: State, c: nat): State {
    if c < |s.conns| && D.PhaseOf(s.drain, c).Looping? && s.conns[c].reader.Waiting? && |s.conns[c].flights| < S.LIMIT then
      State(D.Step(D.Step(s.drain, D.AddHandler(c)), D.Launch(c)),
            s.conns[c := S.Step(cfg, s.conns[c], S.Admit)],
            s.owner + [(c, s.conns[c].reader.line)])
    else s
  }

  /** A handler gives back its slot and leaves the wait group. */
  function DoEndHandler(cfg: S.Config, s: State, h: nat): State {
    if h < |s.owner| && h < |s.drain.handlers| && s.drain.handlers[h].Running? then
      var c, k := s.owner[h].0, s.owner[h].1;
      if c < |s.conns| && S.At(s.conns[c], k, S.Done) then
        s.(drain := D.Step(s.drain, D.HandlerDone(h)), conns := s.conns[c := S.Step(cfg, s.conns[c], S.Release(k))])
      else s
    else s
  }

  /** A connection's loop ends after its reader. */
  function DoEndLoop(s: State, c: nat): State {
    if c < |s.conns| && s.conns[c].reader.Ended? then s.(drain := D.Step(s.drain, D.EndLoop(c))) else s
  }

  function Step(cfg: S.Config, s: State, e: Event): State {
    match e
    case Around(x) => DoAround(s, x)
    case AtConn(c, x) => DoAtConn(cfg, s, c, x)
    case StartHandler(c) => DoStartHandler(cfg, s, c)
    case EndHandler(h) => DoEndHandler(cfg, s, h)
    case EndLoop(c) => DoEndLoop(s, c)
  }

  function Run(cfg: S.Config, es: seq<Event>): State {
    if es == [] then NEW else Step(cfg, Run(cfg, es[..|es| - 1]), es[|es| - 1])
  }

  // ---------- the invariant ----------

  /** A connection's loop is over for good. */
  predicate LoopOver(d: D.State, c: nat) {
    D.PhaseOf(d, c).Deleted? || D.PhaseOf(d, c).Over?
  }

  ghost predicate ConnOk(cfg: S.Config, s: State, c: nat)
    requires c < |s.conns|
  {
    && S.Inv(cfg, s.conns[c])
    && (LoopOver(s.drain, c) ==> s.conns[c].reader.Ended?)
  }

  /** A handler holds its slot exactly until it is done. */
  ghost predicate OwnerOk(s: State, h: nat)
    requires h < |s.owner|
  {
    var c, k := s.owner[h].0, s.owner[h].1;
    && c < |s.conns| && k in s.conns[c].started
    && (h < |s.drain.handlers| ==> (s.drain.handlers[h].Running? <==> k in s.conns[c].flights))
  }

  ghost predicate HasOwner(s: State, c: nat, k: nat) {
    exists h :: 0 <= h < |s.owner| && s.owner[h] == (c, k)
  }

  ghost predicate Linked(s: State) {
    && |s.conns| == |s.drain.phases| && |s.owner| == |s.drain.handlers|
    && (forall h :: 0 <= h < |s.owner| ==> OwnerOk(s, h))
    && (forall g, h :: 0 <= g < h < |s.owner| ==> s.owner[g] != s.owner[h])
    && (forall c :: 0 <= c < |s.drain.phases| ==> !s.drain.phases[c].Launching?)
    && (forall c, k :: 0 <= c < |s.conns| && k in s.conns[c].started ==> HasOwner(s, c, k))
  }

  ghost predicate Inv(cfg: S.Config, s: State) {
    && D.Inv(s.drain)
    && Linked(s)
    && (forall c :: 0 <= c < |s.conns| ==> ConnOk(cfg, s, c))
  }
}
