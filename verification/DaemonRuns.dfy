/** Every run of the whole daemon: when it is drained, every request it started has been answered. */
module DaemonRuns {
  import opened Daemon
  import N = Counting
  import DR = DrainRuns
  import SR = ServerRuns

  // ---------- every step keeps it ----------

  lemma {:induction false} DrainMoves(d: D.State, e: D.Event)
    ensures var t := D.Step(d, e);
            && |d.phases| <= |t.phases| <= |d.phases| + 1
            && (!e.EndLoop? ==> forall c :: 0 <= c < |t.phases| && LoopOver(t, c) ==> c < |d.phases| && LoopOver(d, c))
            && (!e.Launch? && !e.HandlerDone? ==> t.handlers == d.handlers)
            && (!e.Map? ==> |t.phases| == |d.phases|)
            && (!e.AddHandler? ==> forall c :: 0 <= c < |t.phases| && t.phases[c].Launching? ==> c < |d.phases| && d.phases[c].Launching?)
  {
  }

  lemma {:induction false} KeepsAround(cfg: S.Config, s: State, e: D.Event)
    requires Inv(cfg, s)
    ensures Inv(cfg, DoAround(s, e))
  {
    hide D.Inv, S.Inv, D.Step;
    var t := DoAround(s, e);
    if t != s {
      DR.StepKeeps(s.drain, e);
      DrainMoves(s.drain, e);
      SR.RunKeeps(cfg, []);
      assert S.Run(cfg, []) == S.NEW;
      forall c | 0 <= c < |t.conns| ensures ConnOk(cfg, t, c) {
        if c < |s.conns| { assert ConnOk(cfg, s, c); }
      }
      forall h | 0 <= h < |t.owner| ensures OwnerOk(t, h) { assert OwnerOk(s, h); }
      forall c, k | 0 <= c < |t.conns| && k in t.conns[c].started ensures HasOwner(t, c, k) {
        assert HasOwner(s, c, k);
      }
    }
  }

  /** One connection makes a step that starts nothing; its loop goes on or was over already. */
  lemma {:induction false} OneConn(cfg: S.Config, s: State, t: State, c: nat, e: S.Event)
    requires Inv(cfg, s) && c < |s.conns| && !e.Admit?
    requires t.conns == s.conns[c := S.Step(cfg, s.conns[c], e)] && t.owner == s.owner
    requires D.Inv(t.drain) && t.drain.phases == s.drain.phases && |t.drain.handlers| == |s.drain.handlers|
    requires forall h :: 0 <= h < |s.owner| && s.owner[h].0 == c && s.owner[h].1 in s.conns[c].started ==>
               (t.drain.handlers[h].Running? <==> s.owner[h].1 in t.conns[c].flights)
    requires forall h :: 0 <= h < |s.owner| && s.owner[h].0 != c ==> t.drain.handlers[h] == s.drain.handlers[h]
    ensures Inv(cfg, t)
  {
    hide D.Inv, S.Inv, S.Step;
    assert ConnOk(cfg, s, c);
    SR.StepKeeps(cfg, s.conns[c], e);
    SR.ConnMoves(cfg, s.conns[c], e);
    forall i | 0 <= i < |t.conns| ensures ConnOk(cfg, t, i) { assert ConnOk(cfg, s, i); }
    forall h | 0 <= h < |t.owner| ensures OwnerOk(t, h) { assert OwnerOk(s, h); }
    forall i, k | 0 <= i < |t.conns| && k in t.conns[i].started ensures HasOwner(t, i, k) { assert HasOwner(s, i, k); }
  }

  lemma {:induction false} KeepsAtConn(cfg: S.Config, s: State, c: nat, e: S.Event)
    requires Inv(cfg, s)
    ensures Inv(cfg, DoAtConn(cfg, s, c, e))
  {
    hide D.Inv, S.Inv, S.Step;
    var t := DoAtConn(cfg, s, c, e);
    if t != s {
      SR.ConnMoves(cfg, s.conns[c], e);
      forall h | 0 <= h < |s.owner| && s.owner[h].0 == c
        ensures t.drain.handlers[h].Running? <==> s.owner[h].1 in t.conns[c].flights
      {
        assert OwnerOk(s, h);
      }
      OneConn(cfg, s, t, c, e);
    }
  }

  lemma {:induction false} KeepsEndHandler(cfg: S.Config, s: State, h: nat)
    requires Inv(cfg, s)
    ensures Inv(cfg, DoEndHandler(cfg, s, h))
  {
    hide D.Inv, S.Inv;
    var t := DoEndHandler(cfg, s, h);
    if t != s {
      DR.StepKeeps(s.drain, D.HandlerDone(h));
      Released(cfg, s, h);
      OneConn(cfg, s, t, s.owner[h].0, S.Release(s.owner[h].1));
    }
  }

  /** A handler gives back its own slot and no other. */
  lemma {:induction false} Released(cfg: S.Config, s: State, h: nat)
    requires Inv(cfg, s) && DoEndHandler(cfg, s, h) != s
    ensures var t, c := DoEndHandler(cfg, s, h), s.owner[h].0;
            && t.drain.phases == s.drain.phases && t.drain.handlers == s.drain.handlers[h := D.Done]
            && t.conns == s.conns[c := S.Step(cfg, s.conns[c], S.Release(s.owner[h].1))]
            && forall g :: 0 <= g < |s.owner| && s.owner[g].0 == c ==>
                 (t.drain.handlers[g].Running? <==> s.owner[g].1 in t.conns[c].flights)
  {
    hide S.Inv;
    var t, c := DoEndHandler(cfg, s, h), s.owner[h].0;
    assert OwnerOk(s, h);
    DrainCounts(s.drain, h);
    forall g | 0 <= g < |s.owner| && s.owner[g].0 == c
      ensures t.drain.handlers[g].Running? <==> s.owner[g].1 in t.conns[c].flights
    {
      assert OwnerOk(s, g);
      assert g != h ==> s.owner[g] != s.owner[h];
    }
  }

  /** A running handler is counted. */
  lemma {:induction false} DrainCounts(d: D.State, h: nat)
    requires D.Inv(d) && h < |d.handlers| && d.handlers[h].Running?
    ensures d.handlerWG > 0
  {
    N.TotalAtLeast(d.handlers, h, D.Alive);
  }

  lemma {:induction false} Starts(cfg: S.Config, c: S.Conn)
    requires c.reader.Waiting? && |c.flights| < S.LIMIT
    ensures var d := S.Step(cfg, c, S.Admit);
            && d.started == c.started + {c.reader.line} && d.reader.Reading?
            && forall k :: k in d.flights <==> k in c.flights || k == c.reader.line
  {
  }

  lemma {:induction false} Counts(d: D.State, c: nat)
    requires D.PhaseOf(d, c).Looping?
    ensures var t := D.Step(D.Step(d, D.AddHandler(c)), D.Launch(c));
            t.phases == d.phases && t.handlers == d.handlers + [D.Running]
  {
  }

  lemma {:induction false} KeepsStartHandler(cfg: S.Config, s: State, c: nat)
    requires Inv(cfg, s)
    ensures Inv(cfg, DoStartHandler(cfg, s, c))
  {
    hide D.Inv, S.Inv, S.Step, D.Step;
    var t := DoStartHandler(cfg, s, c);
    if t != s {
      DR.StepKeeps(s.drain, D.AddHandler(c));
      DR.StepKeeps(D.Step(s.drain, D.AddHandler(c)), D.Launch(c));
      Counts(s.drain, c);
      assert ConnOk(cfg, s, c);
      SR.StepKeeps(cfg, s.conns[c], S.Admit);
      Starts(cfg, s.conns[c]);
      NewLine(cfg, s.conns[c]);
      forall i | 0 <= i < |t.conns| ensures ConnOk(cfg, t, i) { assert ConnOk(cfg, s, i); }
      forall h | 0 <= h < |t.owner| ensures OwnerOk(t, h) {
        if h < |s.owner| { assert OwnerOk(s, h); }
      }
      assert t.owner[|s.owner|] == (c, s.conns[c].reader.line);
      forall g, h | 0 <= g < h < |t.owner| ensures t.owner[g] != t.owner[h] { assert OwnerOk(s, g); }
      forall i, k | 0 <= i < |t.conns| && k in t.conns[i].started ensures HasOwner(t, i, k) {
        if k in s.conns[i].started {
          assert HasOwner(s, i, k);
          var h :| 0 <= h < |s.owner| && s.owner[h] == (i, k);
          assert t.owner[h] == (i, k);
        }
      }
    }
  }

  lemma {:induction false} NewLine(cfg: S.Config, c: S.Conn)
    requires S.Inv(cfg, c) && c.reader.Waiting?
    ensures c.reader.line !in c.started && forall k :: k in c.flights ==> k in c.started
  {
  }

  lemma {:induction false} KeepsEndLoop(cfg: S.Config, s: State, c: nat)
    requires Inv(cfg, s)
    ensures Inv(cfg, DoEndLoop(s, c))
  {
    hide D.Inv, S.Inv;
    var t := DoEndLoop(s, c);
    if t != s {
      DR.StepKeeps(s.drain, D.EndLoop(c));
      forall i | 0 <= i < |t.conns| ensures ConnOk(cfg, t, i) { assert ConnOk(cfg, s, i); }
      forall h | 0 <= h < |t.owner| ensures OwnerOk(t, h) { assert OwnerOk(s, h); }
      forall i, k | 0 <= i < |t.conns| && k in t.conns[i].started ensures HasOwner(t, i, k) { assert HasOwner(s, i, k); }
    }
  }

  lemma {:induction false} StepKeeps(cfg: S.Config, s: State, e: Event)
    requires Inv(cfg, s)
    ensures Inv(cfg, Step(cfg, s, e))
  {
    hide D.Inv, ConnOk, OwnerOk, HasOwner, S.Step, D.Step;
    match e
    case Around(x) => KeepsAround(cfg, s, x);
    case AtConn(c, x) => KeepsAtConn(cfg, s, c, x);
    case StartHandler(c) => KeepsStartHandler(cfg, s, c);
    case EndHandler(h) => KeepsEndHandler(cfg, s, h);
    case EndLoop(c) => KeepsEndLoop(cfg, s, c);
  }

  lemma {:induction false} RunKeeps(cfg: S.Config, es: seq<Event>)
    ensures Inv(cfg, Run(cfg, es))
  {
    if es == [] {
      DR.RunKeeps([]);
      assert D.Run([]) == D.NEW;
    } else {
      hide Inv, Step;
      RunKeeps(cfg, es[..|es| - 1]);
      StepKeeps(cfg, Run(cfg, es[..|es| - 1]), es[|es| - 1]);
    }
  }

  /** A connection reads and starts requests only while its loop runs. */
  lemma {:induction false} ReadsOnlyInLoop(cfg: S.Config, es: seq<Event>, e: Event, c: nat)
    requires c < |Run(cfg, es).conns| && !D.PhaseOf(Run(cfg, es).drain, c).Looping?
    ensures var s, t := Run(cfg, es), Step(cfg, Run(cfg, es), e);
            && c < |t.conns| && t.conns[c].pos == s.conns[c].pos && t.conns[c].started == s.conns[c].started
            && t.conns[c].reader == s.conns[c].reader
  {
    hide Run, D.Step, S.Handle, S.IdOf;
  }

  // ---------- what the drain promises ----------

  lemma {:induction false} Idle(cfg: S.Config, s: State, c: nat)
    requires Inv(cfg, s) && s.drain.drainer.Drained? && c < |s.conns|
    ensures S.Inv(cfg, s.conns[c]) && s.conns[c].reader.Ended? && s.conns[c].flights == map[]
  {
    hide D.GroupsOk, D.AcceptOk;
    assert ConnOk(cfg, s, c);
    assert s.drain.phases[c].Over?;
    forall k | k in s.conns[c].started ensures k !in s.conns[c].flights {
      assert HasOwner(s, c, k);
      var h :| 0 <= h < |s.owner| && s.owner[h] == (c, k);
      assert OwnerOk(s, h) && s.drain.handlers[h].Done?;
    }
  }

  /**
   Once `done` is closed, every request that any connection ever started is settled: it has the one
   response due to it, with its own id, or none if its result cannot be encoded.
   */
  lemma {:induction false} DrainedMeansAnswered(cfg: S.Config, es: seq<Event>, c: nat, k: nat)
    requires Run(cfg, es).drain.drainer.Drained?
    requires c < |Run(cfg, es).conns| && k in Run(cfg, es).conns[c].started
    ensures SR.Settled(cfg, Run(cfg, es).conns[c], k)
  {
    hide Run, Inv, S.Inv, SR.Settled;
    RunKeeps(cfg, es);
    Idle(cfg, Run(cfg, es), c);
    SR.RanIsSettled(cfg, Run(cfg, es).conns[c], k);
  }

  /** After that nothing is started or answered any more. */
  lemma {:induction false} SilentOnceDrained(cfg: S.Config, es: seq<Event>, e: Event, c: nat)
    requires Run(cfg, es).drain.drainer.Drained? && c < |Run(cfg, es).conns|
    ensures var s, t := Run(cfg, es), Step(cfg, Run(cfg, es), e);
            && |t.conns| == |s.conns| && t.drain == s.drain
            && t.conns[c].started == s.conns[c].started && t.conns[c].responses == s.conns[c].responses
  {
    hide Run, S.Inv;
    var s := Run(cfg, es);
    RunKeeps(cfg, es);
    Idle(cfg, s, c);
    if e.Around? {
      DR.DrainedStep(s.drain, e.around);
    } else if e.EndHandler? {
      assert forall h :: 0 <= h < |s.drain.handlers| ==> s.drain.handlers[h].Done?;
    } else if e.EndLoop? {
      DR.DrainedStep(s.drain, D.EndLoop(e.c));
    }
  }

  // ---------- the drain can always be completed ----------

  lemma {:induction false} RunSnoc(cfg: S.Config, es: seq<Event>, e: Event)
    ensures Run(cfg, es + [e]) == Step(cfg, Run(cfg, es), e)
  {
    assert (es + [e])[..|es|] == es;
  }

  lemma {:induction false} HandlerGoesOn(cfg: S.Config, s: State, h: nat) returns (e: Event)
    requires Inv(cfg, s) && h < |s.owner| && s.drain.handlers[h].Running?
    ensures var c, k := s.owner[h].0, s.owner[h].1;
            && c < |s.conns| && k in s.conns[c].flights
            && var t := Step(cfg, s, e);
            && t.owner == s.owner
            && (DR.Left(t.drain) < DR.Left(s.drain)
                || (t.drain == s.drain && c < |t.conns| && k in t.conns[c].flights
                    && SR.StepsLeft(t.conns[c].flights[k]) < SR.StepsLeft(s.conns[c].flights[k])))
  {
    hide D.Inv, S.Inv, S.Step, DR.Left;
    assert OwnerOk(s, h);
    var c, k := s.owner[h].0, s.owner[h].1;
    assert ConnOk(cfg, s, c);
    AtItsPoint(cfg, s.conns[c], k);
    var x := match s.conns[c].flights[k]
      case Running => S.Invoke(k, 0)
      case Encoding(_) => S.Encode(k)
      case Recovering => S.Recover(k)
      case Writing(_) => S.Write(k)
      case Done => S.Release(k);
    SR.NextStep(cfg, s.conns[c], x, k);
    if x.Release? {
      e := EndHandler(h);
      DR.HandlerNearer(s.drain, h);
    } else {
      e := AtConn(c, x);
    }
  }

  lemma {:induction false} AtItsPoint(cfg: S.Config, c: S.Conn, k: nat)
    requires S.Inv(cfg, c) && k in c.flights
    ensures S.FlightsOk(cfg, c) && S.At(c, k, c.flights[k])
  {
    SR.CoreFlights(cfg, c);
    SR.FlightFacts(cfg, c, k);
  }

  lemma {:induction false} HandlerCanEnd(cfg: S.Config, es: seq<Event>, h: nat, left: nat) returns (fs: seq<Event>)
    requires var s := Run(cfg, es);
             && Inv(cfg, s) && h < |s.owner| && s.drain.handlers[h].Running?
             && OwnerOk(s, h) && SR.StepsLeft(s.conns[s.owner[h].0].flights[s.owner[h].1]) <= left
    ensures DR.Left(Run(cfg, es + fs).drain) < DR.Left(Run(cfg, es).drain)
    decreases left
  {
    hide Run, Step, DR.Left, SR.StepsLeft, D.Inv, ConnOk;
    var e := HandlerGoesOn(cfg, Run(cfg, es), h);
    RunSnoc(cfg, es, e);
    fs := [e];
    if DR.Left(Run(cfg, es + [e]).drain) >= DR.Left(Run(cfg, es).drain) {
      RunKeeps(cfg, es + [e]);
      assert OwnerOk(Run(cfg, es + [e]), h);
      var rest := HandlerCanEnd(cfg, es + [e], h, left - 1);
      fs := [e] + rest;
      assert es + fs == es + [e] + rest;
    }
  }

  /** A loop's reader ends at a failed read, or, waiting for a slot, when the context is cancelled. */
  lemma {:induction false} ReaderCanEnd(cfg: S.Config, es: seq<Event>, c: nat) returns (fs: seq<Event>)
    requires var s := Run(cfg, es); c < |s.conns| && D.PhaseOf(s.drain, c).Looping?
    ensures var s, t := Run(cfg, es), Run(cfg, es + fs);
            t.drain == s.drain && c < |t.conns| && t.conns[c].reader.Ended?
  {
    hide Run;
    fs := match Run(cfg, es).conns[c].reader
      case Reading => [AtConn(c, S.Hangup)]
      case Waiting(_) => [AtConn(c, S.Cancel), AtConn(c, S.GiveUp)]
      case Ended => [];
    assert fs == [] ==> es + fs == es;
    if |fs| == 1 { RunSnoc(cfg, es, fs[0]); }
    if |fs| == 2 {
      RunSnoc(cfg, es, fs[0]);
      RunSnoc(cfg, es + [fs[0]], fs[1]);
      assert es + fs == es + [fs[0]] + [fs[1]];
    }
  }

  lemma {:induction false} ConnCanEnd(cfg: S.Config, es: seq<Event>, c: nat) returns (fs: seq<Event>)
    requires var d := Run(cfg, es).drain;
             d.acceptor.Ended? && c < |d.phases| && !d.phases[c].Over?
    ensures DR.Left(Run(cfg, es + fs).drain) < DR.Left(Run(cfg, es).drain)
  {
    hide Run, DR.Left, D.Inv, ConnOk, OwnerOk, HasOwner, D.Step;
    RunKeeps(cfg, es);
    var e := DR.ConnNearer(Run(cfg, es).drain, c);
    if e.EndLoop? {
      var gs := ReaderCanEnd(cfg, es, c);
      RunSnoc(cfg, es + gs, EndLoop(c));
      fs := gs + [EndLoop(c)];
      assert es + fs == es + gs + [EndLoop(c)];
    } else {
      fs := [Around(e)];
      RunSnoc(cfg, es, Around(e));
    }
  }

  lemma {:induction false} Nearer(cfg: S.Config, es: seq<Event>) returns (fs: seq<Event>)
    requires !Run(cfg, es).drain.drainer.Drained?
    ensures DR.Left(Run(cfg, es + fs).drain) < DR.Left(Run(cfg, es).drain)
  {
    hide Run, DR.Left, D.Inv, ConnOk, HasOwner, D.Step;
    var d := Run(cfg, es).drain;
    RunKeeps(cfg, es);
    if !d.acceptor.Ended? {
      var e := DR.AcceptNearer(d);
      RunSnoc(cfg, es, Around(e));
      fs := [Around(e)];
    } else if c :| 0 <= c < |d.phases| && !d.phases[c].Over? {
      fs := ConnCanEnd(cfg, es, c);
    } else if h :| 0 <= h < |d.handlers| && !d.handlers[h].Done? {
      assert OwnerOk(Run(cfg, es), h);
      fs := HandlerCanEnd(cfg, es, h, 6);
    } else {
      var e := DR.EndNearer(d);
      RunSnoc(cfg, es, Around(e));
      fs := [Around(e)];
    }
  }

  /**
   No state of the daemon is a dead end: whatever its connections, readers and handlers are doing, it can
   still be drained, and then every request it has started is settled.
   */
  lemma {:induction false} DrainReachable(cfg: S.Config, es: seq<Event>) returns (fs: seq<Event>)
    ensures var t := Run(cfg, es + fs);
            && t.drain.drainer.Drained?
            && forall c, k :: 0 <= c < |t.conns| && k in t.conns[c].started ==> SR.Settled(cfg, t.conns[c], k)
    decreases DR.Left(Run(cfg, es).drain)
  {
    hide Run, DR.Left, SR.Settled;
    if Run(cfg, es).drain.drainer.Drained? {
      fs := [];
      assert es + fs == es;
      forall c, k | 0 <= c < |Run(cfg, es).conns| && k in Run(cfg, es).conns[c].started
        ensures SR.Settled(cfg, Run(cfg, es).conns[c], k)
      {
        DrainedMeansAnswered(cfg, es, c, k);
      }
    } else {
      var gs := Nearer(cfg, es);
      var rest := DrainReachable(cfg, es + gs);
      fs := gs + rest;
      assert es + fs == es + gs + rest;
    }
  }
}
