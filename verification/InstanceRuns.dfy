/** Every run of daemons and probers: one listener, safe files, and recovery. */
module InstanceRuns {
  import opened Basics
  import opened SingleInstance

  /** What the invariant says of one process. */
  lemma {:induction false} ProcessFacts(s: State, p: nat)
    requires Inv(s) && p < |s.pcs|
    ensures PcOk(s, p) && PidOk(s) && (HoldsLock(s.pcs[p]) <==> s.lock == Some(p))
  {
  }

  /** One process acts, under the lock if it touches a file; nobody else is affected. */
  lemma {:induction false} OneActs(s: State, t: State, p: nat, pc: Pc)
    requires Inv(s) && p < |s.pcs| && t.pcs == s.pcs[p := pc]
    requires t.lock == if HoldsLock(pc) then Some(p) else if s.lock == Some(p) then None else s.lock
    requires HoldsLock(pc) ==> s.lock == None || s.lock == Some(p)
    requires s.lock == Some(p) || (t.socket == s.socket && t.pid == s.pid && t.clean == s.clean)
    requires PcOk(t, p) && PidOk(t)
    ensures Inv(t)
  {
    forall q | 0 <= q < |t.pcs| ensures PcOk(t, q) {
      assert PcOk(s, q);
    }
  }

  lemma {:induction false} KeepsStartUp(s: State, p: nat, ok: bool)
    requires Inv(s) && p < |s.pcs| && IsStartUp(s.pcs[p])
    ensures Inv(StartUp(s, p, ok))
  {
    hide Inv, Answered;
    ProcessFacts(s, p);
    OneActs(s, StartUp(s, p, ok), p, PcOf(StartUp(s, p, ok), p));
  }

  lemma {:induction false} KeepsShutDown(s: State, p: nat, ok: bool)
    requires Inv(s) && p < |s.pcs|
    ensures Inv(ShutDown(s, p, ok))
  {
    hide Inv, Answered;
    ProcessFacts(s, p);
    if ShutDown(s, p, ok) != s {
      OneActs(s, ShutDown(s, p, ok), p, PcOf(ShutDown(s, p, ok), p));
    }
  }

  lemma {:induction false} KeepsProbing(s: State, p: nat, ok: bool)
    requires Inv(s) && p < |s.pcs| && IsProbe(s.pcs[p])
    ensures Inv(Probing(s, p, ok))
  {
    hide Inv, Answered;
    ProcessFacts(s, p);
    var t := Probing(s, p, ok);
    if s.lock == Some(p) {
      assert s.clean ==> s.pid.None?;
    }
    OneActs(s, t, p, PcOf(t, p));
  }

  lemma {:induction false} KeepsCrash(s: State, p: nat)
    requires Inv(s)
    ensures Inv(DoCrash(s, p))
  {
    var t := DoCrash(s, p);
    forall q | 0 <= q < |t.pcs| ensures PcOk(t, q) {
      assert PcOk(s, q);
    }
  }

  lemma {:induction false} KeepsSpawn(s: State, daemon: bool)
    requires Inv(s)
    ensures Inv(Step(s, Spawn(daemon)))
  {
    var t := Step(s, Spawn(daemon));
    forall q | 0 <= q < |t.pcs| ensures PcOk(t, q) {
      if q < |s.pcs| { assert PcOk(s, q); }
    }
  }

  lemma {:induction false} StepKeeps(s: State, e: Event)
    requires Inv(s)
    ensures Inv(Step(s, e))
  {
    hide Inv, StartUp, Probing, DoCrash;
    match e
    case Spawn(daemon) => KeepsSpawn(s, daemon);
    case Crash(p) => KeepsCrash(s, p);
    case Act(p, ok) =>
      if p < |s.pcs| {
        if IsStartUp(PcOf(s, p)) {
          KeepsStartUp(s, p, ok);
        } else if IsProbe(PcOf(s, p)) {
          KeepsProbing(s, p, ok);
        } else {
          KeepsShutDown(s, p, ok);
        }
      }
  }

  lemma {:induction false} RunKeeps(socket: Option<SocketFile>, pid: Option<nat>, es: seq<Event>)
    ensures Inv(Run(socket, pid, es))
  {
    if es != [] {
      hide Step, Inv;
      RunKeeps(socket, pid, es[..|es| - 1]);
      StepKeeps(Run(socket, pid, es[..|es| - 1]), es[|es| - 1]);
    }
  }

  // ---------- what every run promises ----------

  /** At most one process is ever listening. */
  lemma {:induction false} AtMostOneListener(socket: Option<SocketFile>, pid: Option<nat>, es: seq<Event>, p: nat, q: nat)
    requires ListensOn(PcOf(Run(socket, pid, es), p)).Some? && ListensOn(PcOf(Run(socket, pid, es), q)).Some?
    ensures p == q && Run(socket, pid, es).lock == Some(p)
  {
    hide Run, AllOk, PidOk;
    RunKeeps(socket, pid, es);
    var s := Run(socket, pid, es);
    assert HoldsLock(s.pcs[p]) && HoldsLock(s.pcs[q]);
  }

  /** A serving daemon's pid is in the PID file, and the socket at the path is the one it listens on. */
  lemma {:induction false} ServingOwnsFiles(socket: Option<SocketFile>, pid: Option<nat>, es: seq<Event>, p: nat)
    requires PcOf(Run(socket, pid, es), p).Serving?
    ensures var s := Run(socket, pid, es);
            && s.pid == Some(p) && s.lock == Some(p)
            && s.socket == Some(SocketFile(s.pcs[p].inode, true)) && Answered(s)
  {
    hide Run;
    RunKeeps(socket, pid, es);
    var s := Run(socket, pid, es);
    ProcessFacts(s, p);
    assert ListensOn(s.pcs[p]) == Some(s.socket.value.inode);
  }

  /** A step that is not a process's own leaves the files of a process that holds the lock alone. */
  lemma {:induction false} OthersTouchNothing(s: State, e: Event, q: nat)
    requires Inv(s) && HoldsLock(PcOf(s, q)) && !(e.Act? && e.p == q)
    ensures Step(s, e).socket == s.socket && Step(s, e).pid == s.pid
  {
    if e.Act? && e.p < |s.pcs| {
      assert !HoldsLock(s.pcs[e.p]);
    }
  }

  /**
   From the moment a daemon holds the lock until it releases it, no other process - prober or daemon,
   crashing or not - changes the socket or the PID file.
   */
  lemma {:induction false} LiveFilesSafe(socket: Option<SocketFile>, pid: Option<nat>, es: seq<Event>, e: Event, q: nat)
    requires HoldsLock(PcOf(Run(socket, pid, es), q)) && !(e.Act? && e.p == q)
    ensures var s := Run(socket, pid, es); Step(s, e).socket == s.socket && Step(s, e).pid == s.pid
  {
    hide Run, Step;
    RunKeeps(socket, pid, es);
    OthersTouchNothing(Run(socket, pid, es), e, q);
  }

  /** A process that has the lock but does not listen itself is alone: nobody listens. */
  lemma {:induction false} NobodyListens(s: State, p: nat)
    requires Inv(s) && HoldsLock(PcOf(s, p)) && ListensOn(PcOf(s, p)).None?
    ensures !Answered(s) && forall q :: 0 <= q < |s.pcs| ==> ListensOn(s.pcs[q]).None?
  {
    hide AllOk, PidOk;
    forall q | 0 <= q < |s.pcs| ensures ListensOn(s.pcs[q]).None? {
      assert q != p ==> !HoldsLock(s.pcs[q]);
    }
  }

  /** So the dial before a stale socket is removed never succeeds, and what is removed is dead. */
  lemma {:induction false} CleanupFindsDeadSocket(socket: Option<SocketFile>, pid: Option<nat>, es: seq<Event>, p: nat)
    requires var pc := PcOf(Run(socket, pid, es), p);
             pc.Found? || pc.Stale? || pc.ProbeFound? || pc.ProbeStale? || pc.ProbeClear?
    ensures var s := Run(socket, pid, es);
            !Answered(s) && forall q :: 0 <= q < |s.pcs| ==> ListensOn(s.pcs[q]).None?
  {
    hide Run, Inv, Answered;
    RunKeeps(socket, pid, es);
    NobodyListens(Run(socket, pid, es), p);
  }

  /** The run starts without a PID file, nobody crashes, and no removal of the PID file fails. */
  ghost predicate CrashFree(socket: Option<SocketFile>, pid: Option<nat>, es: seq<Event>) {
    if es == [] then pid.None?
    else
      var before, e := es[..|es| - 1], es[|es| - 1];
      CrashFree(socket, pid, before) && Orderly(Run(socket, pid, before), e)
  }

  predicate Orderly(s: State, e: Event) {
    !e.Crash? && !(e.Act? && !e.ok && (PcOf(s, e.p).Drained? || PcOf(s, e.p).ProbeClear?))
  }

  lemma {:induction false} OrderlyStep(s: State, e: Event)
    requires s.clean && Orderly(s, e)
    ensures Step(s, e).clean
  {
    if e.Act? {
      if IsStartUp(PcOf(s, e.p)) {
      } else if IsProbe(PcOf(s, e.p)) {
      }
    }
  }

  lemma {:induction false} CrashFreeIsClean(socket: Option<SocketFile>, pid: Option<nat>, es: seq<Event>)
    requires CrashFree(socket, pid, es)
    ensures Run(socket, pid, es).clean
  {
    hide Step, Orderly;
    if es != [] {
      CrashFreeIsClean(socket, pid, es[..|es| - 1]);
      OrderlyStep(Run(socket, pid, es[..|es| - 1]), es[|es| - 1]);
    }
  }

  /** In a crash-free run a PID file names the lock holder: also at the moment a prober reads it. */
  lemma {:induction false} PidNamesHolder(socket: Option<SocketFile>, pid: Option<nat>, es: seq<Event>)
    requires CrashFree(socket, pid, es)
    ensures var s := Run(socket, pid, es); s.pid.Some? ==> s.lock == s.pid
  {
    hide Run, CrashFree;
    RunKeeps(socket, pid, es);
    CrashFreeIsClean(socket, pid, es);
  }

  /** Which part of the program a process is in. */
  lemma {:induction false} WhichPart(s: State, p: nat, ok: bool)
    ensures IsStartUp(PcOf(s, p)) ==> Step(s, Act(p, ok)) == StartUp(s, p, ok)
    ensures IsProbe(PcOf(s, p)) ==> Step(s, Act(p, ok)) == Probing(s, p, ok)
    ensures !IsStartUp(PcOf(s, p)) && !IsProbe(PcOf(s, p)) ==> Step(s, Act(p, ok)) == ShutDown(s, p, ok)
  {
    hide StartUp, Probing, ShutDown;
  }

  /** A point at which a daemon has written its PID file, or a later one. */
  predicate WrotePid(pc: Pc) {
    pc.Serving? || pc.Unlinked? || pc.Drained? || pc.PidGone? || pc.Removing? || pc.Releasing? || pc.Gone? || pc.Crashed?
  }

  ghost predicate PidWritten(s: State) {
    s.pid.Some? ==> s.pid.value < |s.pcs| && WrotePid(s.pcs[s.pid.value])
  }

  lemma {:induction false} PidWrittenByAct(s: State, p: nat, ok: bool)
    requires PidWritten(s)
    ensures PidWritten(Step(s, Act(p, ok)))
  {
    hide Step, Answered;
    WhichPart(s, p, ok);
  }

  lemma {:induction false} PidWrittenStays(s: State, e: Event)
    requires PidWritten(s)
    ensures PidWritten(Step(s, e))
  {
    hide StartUp, ShutDown, Probing;
    if e.Act? { PidWrittenByAct(s, e.p, e.ok); }
  }

  lemma {:induction false} WrittenInRun(socket: Option<SocketFile>, es: seq<Event>)
    ensures PidWritten(Run(socket, None, es))
  {
    if es != [] {
      hide Step, PidWritten;
      WrittenInRun(socket, es[..|es| - 1]);
      PidWrittenStays(Run(socket, None, es[..|es| - 1]), es[|es| - 1]);
    }
  }

  /**
   With crashes and failed removals anywhere: a PID file names the lock holder exactly when the process
   it names is still there.
   */
  lemma {:induction false} PidNamesHolderExactly(socket: Option<SocketFile>, es: seq<Event>)
    requires Run(socket, None, es).pid.Some?
    ensures var s := Run(socket, None, es);
            && s.pid.value < |s.pcs|
            && (s.lock == s.pid <==> !s.pcs[s.pid.value].Crashed? && !s.pcs[s.pid.value].Gone?)
  {
    hide Run;
    RunKeeps(socket, None, es);
    WrittenInRun(socket, es);
  }

  lemma {:induction false} RunSnoc(socket: Option<SocketFile>, pid: Option<nat>, es: seq<Event>, e: Event)
    ensures Run(socket, pid, es + [e]) == Step(Run(socket, pid, es), e)
  {
    assert (es + [e])[..|es|] == es;
  }

  /** `n` successful steps of one process. */
  function Advance(s: State, p: nat, n: nat): State {
    if n == 0 then s else Step(Advance(s, p, n - 1), Act(p, true))
  }

  // ---------- one process among the others ----------

  /** What a process can see of itself and of the files. */
  function View(s: State, p: nat): (Pc, Option<nat>, Option<SocketFile>, Option<nat>, nat) {
    (PcOf(s, p), s.lock, s.socket, s.pid, s.next)
  }

  /** Nobody else changes what a lock holder sees. */
  lemma {:induction false} OthersUnseen(s: State, e: Event, p: nat)
    requires Inv(s) && HoldsLock(PcOf(s, p)) && !(e.Act? && e.p == p) && e != Crash(p)
    ensures View(Step(s, e), p) == View(s, p)
  {
    if e.Act? && e.p < |s.pcs| {
      assert !HoldsLock(s.pcs[e.p]);
    }
  }

  /** Its own step depends on nothing else, if it has the lock or the lock is free. */
  lemma {:induction false} OwnStep(s: State, t: State, p: nat)
    requires Inv(s) && Inv(t) && p < |s.pcs| && p < |t.pcs| && View(s, p) == View(t, p)
    requires HoldsLock(PcOf(s, p))
    ensures View(Step(s, Act(p, true)), p) == View(Step(t, Act(p, true)), p)
  {
    hide Inv, Answered, Step;
    WhichPart(s, p, true);
    WhichPart(t, p, true);
    if ListensOn(PcOf(s, p)).None? {
      NobodyListens(s, p);
      NobodyListens(t, p);
    }
  }

  lemma {:induction false} ActSpawnsNone(s: State, p: nat)
    ensures |Step(s, Act(p, true)).pcs| == |s.pcs|
  {
    hide Step, Answered;
    WhichPart(s, p, true);
  }

  lemma {:induction false} AdvanceKeeps(s: State, p: nat, n: nat)
    requires Inv(s)
    ensures Inv(Advance(s, p, n)) && |Advance(s, p, n).pcs| == |s.pcs|
  {
    if n > 0 {
      hide Inv, Step;
      AdvanceKeeps(s, p, n - 1);
      StepKeeps(Advance(s, p, n - 1), Act(p, true));
      ActSpawnsNone(Advance(s, p, n - 1), p);
    }
  }

  /** A process that does not get the lock with a step, or has given it up, never has it again. */
  predicate Out(pc: Pc) {
    pc.ProbeDenied? || pc.Reported? || pc.Gone? || pc.Crashed?
  }

  lemma {:induction false} InOrOut(s: State, p: nat)
    ensures var pc := PcOf(Step(s, Act(p, true)), p);
            (HoldsLock(pc) || Out(pc)) && (Out(PcOf(s, p)) ==> Out(pc))
  {
    hide Answered;
    WhichPart(s, p, true);
  }

  lemma {:induction false} HeldSoFar(s: State, p: nat, k: nat, n: nat)
    requires 1 <= k <= n && HoldsLock(PcOf(Advance(s, p, n), p))
    ensures HoldsLock(PcOf(Advance(s, p, k), p))
    decreases n
  {
    hide Step;
    if k < n {
      InOrOut(Advance(s, p, n - 2), p);
      InOrOut(Advance(s, p, n - 1), p);
      HeldSoFar(s, p, k, n - 1);
    }
  }

  predicate Own(e: Event, p: nat) {
    e.Act? && e.p == p
  }

  function Owned(fs: seq<Event>, p: nat): nat {
    if fs == [] then 0 else Owned(fs[..|fs| - 1], p) + if Own(fs[|fs| - 1], p) then 1 else 0
  }

  /** A process starts a stretch of the run, does not crash in it, and none of its calls fails. */
  predicate Proceeds(fs: seq<Event>, p: nat) {
    && (fs != [] ==> Own(fs[0], p))
    && forall k :: 0 <= k < |fs| ==> fs[k] != Crash(p) && (Own(fs[k], p) ==> fs[k].ok)
  }

  lemma {:induction false} OwnsFirst(fs: seq<Event>, p: nat)
    requires Proceeds(fs, p) && fs != []
    ensures Owned(fs, p) >= 1
  {
    if |fs| > 1 { OwnsFirst(fs[..|fs| - 1], p); }
  }

  lemma {:induction false} StepGrows(s: State, e: Event)
    ensures |Step(s, e).pcs| >= |s.pcs|
  {
    hide Answered;
  }

  /**
   Whatever the others do in between, a process sees what it would see alone, up to the step with which
   it gives up the lock.
   */
  lemma {:induction false} SeesItselfAlone(socket: Option<SocketFile>, pid: Option<nat>, es: seq<Event>, fs: seq<Event>, p: nat)
    requires Proceeds(fs, p) && p < |Run(socket, pid, es).pcs|
    requires forall k :: 1 <= k < Owned(fs, p) ==> HoldsLock(PcOf(Advance(Run(socket, pid, es), p, k), p))
    requires fs != [] && !Own(fs[|fs| - 1], p) ==> HoldsLock(PcOf(Advance(Run(socket, pid, es), p, Owned(fs, p)), p))
    ensures View(Run(socket, pid, es + fs), p) == View(Advance(Run(socket, pid, es), p, Owned(fs, p)), p)
    ensures p < |Run(socket, pid, es + fs).pcs|
  {
    hide Step, Inv, HoldsLock;
    var s := Run(socket, pid, es);
    if fs == [] {
      assert es + fs == es;
    } else {
      var n := |fs| - 1;
      var init, e := fs[..n], fs[n];
      assert es + fs == (es + init) + [e];
      RunSnoc(socket, pid, es + init, e);
      StepGrows(Run(socket, pid, es + init), e);
      if n == 0 {
        assert es + init == es && Owned(init, p) == 0;
      } else {
        OwnsFirst(init, p);
        SeesItselfAlone(socket, pid, es, init, p);
        var t := Run(socket, pid, es + init);
        RunKeeps(socket, pid, es);
        RunKeeps(socket, pid, es + init);
        AdvanceKeeps(s, p, Owned(init, p));
        if Own(e, p) {
          OwnStep(t, Advance(s, p, Owned(init, p)), p);
        } else {
          OthersUnseen(t, e, p);
        }
      }
    }
  }

  /** From the lock to a clear path. */
  lemma {:induction false} ClearsPath(s: State, p: nat)
    requires Inv(s) && s.lock.None? && PcOf(s, p).Starting?
    ensures var t := Advance(s, p, if s.socket.None? then 2 else 4); PcOf(t, p).Clear? && t.socket.None?
  {
    var locked := Step(s, Act(p, true));
    assert Advance(s, p, 0) == s && Advance(s, p, 1) == locked;
    KeepsStartUp(s, p, true);
    if s.socket.Some? {
      var found := Step(locked, Act(p, true));
      assert Advance(s, p, 2) == found;
      assert PcOf(found, p).Found?;
      KeepsStartUp(locked, p, true);
      NobodyListens(found, p);
      assert Advance(s, p, 3) == Step(found, Act(p, true));
    }
  }

  /** Five steps from the free lock to serving, or seven when a file is in the way. */
  lemma {:induction false} StartsUp(s: State, p: nat)
    requires Inv(s) && s.lock.None? && PcOf(s, p).Starting?
    ensures PcOf(Advance(s, p, if s.socket.None? then 5 else 7), p).Serving?
  {
    hide Inv;
    var n: nat := if s.socket.None? then 2 else 4;
    ClearsPath(s, p);
    var clear := Advance(s, p, n);
    var bound := Step(clear, Act(p, true));
    assert PcOf(bound, p).Bound? && bound.socket.Some?;
    var noted := Step(bound, Act(p, true));
    assert PcOf(noted, p).Noted?;
    assert Advance(s, p, n + 1) == bound && Advance(s, p, n + 2) == noted;
    assert Advance(s, p, n + 3) == Step(noted, Act(p, true));
  }

  /**
   Leftovers never keep a daemon from starting: a daemon that finds the lock free and whose own calls
   succeed is serving after five of its steps, or seven when a file is in the way, whatever the other
   processes do in between.
   */
  lemma {:induction false} RestartSucceeds(socket: Option<SocketFile>, pid: Option<nat>, es: seq<Event>, fs: seq<Event>, p: nat)
    requires Run(socket, pid, es).lock.None? && PcOf(Run(socket, pid, es), p).Starting?
    requires Proceeds(fs, p) && Owned(fs, p) == if Run(socket, pid, es).socket.None? then 5 else 7
    ensures PcOf(Run(socket, pid, es + fs), p).Serving?
  {
    hide Run, Inv, Advance;
    var s := Run(socket, pid, es);
    RunKeeps(socket, pid, es);
    StartsUp(s, p);
    forall k | 1 <= k < Owned(fs, p) ensures HoldsLock(PcOf(Advance(s, p, k), p)) {
      HeldSoFar(s, p, k, Owned(fs, p));
    }
    SeesItselfAlone(socket, pid, es, fs, p);
  }

  /** Closing the listener and removing the PID file. */
  lemma {:induction false} TakesFilesAway(s: State, p: nat)
    requires PcOf(s, p).Serving?
    ensures var t := Advance(s, p, 3); PcOf(t, p).PidGone? && t.socket.None? && t.pid.None?
  {
    hide Step, StartUp, Probing;
    WhichPart(s, p, true);
    var a := Step(s, Act(p, true));
    assert PcOf(a, p).Unlinked? && a.socket.None?;
    WhichPart(a, p, true);
    var b := Step(a, Act(p, true));
    assert PcOf(b, p).Drained? && b.socket.None?;
    WhichPart(b, p, true);
    assert Advance(s, p, 0) == s && Advance(s, p, 1) == a && Advance(s, p, 2) == b;
  }

  lemma {:induction false} WindsUp(s: State, p: nat)
    requires PcOf(s, p).Serving?
    ensures PcOf(Advance(s, p, 4), p).Releasing?
    ensures var t := Advance(s, p, 5); PcOf(t, p).Gone? && t.socket.None? && t.pid.None? && t.lock.None?
  {
    hide Step, StartUp, Probing;
    TakesFilesAway(s, p);
    var c := Advance(s, p, 3);
    WhichPart(c, p, true);
    var d := Step(c, Act(p, true));
    assert PcOf(d, p).Releasing? && d.socket.None? && d.pid.None?;
    WhichPart(d, p, true);
    assert Advance(s, p, 4) == d;
  }

  /**
   A daemon that stops in order takes its socket and PID file with it: whatever the others do meanwhile,
   both are gone at the moment it frees the lock with the fifth of its steps.
   */
  lemma {:induction false} OrderlyExit(socket: Option<SocketFile>, pid: Option<nat>, es: seq<Event>, fs: seq<Event>, p: nat)
    requires PcOf(Run(socket, pid, es), p).Serving?
    requires Proceeds(fs, p) && Owned(fs, p) == 5 && Own(fs[|fs| - 1], p)
    ensures var t := Run(socket, pid, es + fs);
            PcOf(t, p).Gone? && t.socket.None? && t.pid.None? && t.lock.None?
  {
    hide Run, Advance;
    var s := Run(socket, pid, es);
    WindsUp(s, p);
    forall k | 1 <= k < 5 ensures HoldsLock(PcOf(Advance(s, p, k), p)) {
      HeldSoFar(s, p, k, 4);
    }
    SeesItselfAlone(socket, pid, es, fs, p);
  }

  /** After a failed removal of the socket with the listener `removeOwnedSocket` tries again. */
  lemma {:induction false} TriesAgain(s: State, p: nat)
    requires Inv(s) && PcOf(s, p).Unlinked?
    ensures var n := if s.socket.None? then 4 else 5;
            && PcOf(Advance(s, p, n - 1), p).Releasing?
            && var t := Advance(s, p, n);
               PcOf(t, p).Gone? && t.socket.None? && t.pid.None? && t.lock.None?
  {
    hide Step, StartUp, Probing, Exclusive, PidOk;
    assert PcOk(s, p);
    WhichPart(s, p, true);
    var a := Step(s, Act(p, true));
    WhichPart(a, p, true);
    var b := Step(a, Act(p, true));
    assert PcOf(b, p) == PidGone(PcOf(s, p).owned) && b.pid.None? && b.socket == s.socket;
    assert Advance(s, p, 0) == s && Advance(s, p, 1) == a && Advance(s, p, 2) == b;
    hide ShutDown;
    FreesLock(b, p);
    AdvanceOn(s, p, 2, if s.socket.None? then 1 else 2);
    AdvanceOn(s, p, 2, if s.socket.None? then 2 else 3);
  }

  lemma {:induction false} FreesLock(s: State, p: nat)
    requires PcOf(s, p).PidGone? && s.pid.None? && OwnOrNone(s, PcOf(s, p).owned)
    ensures var n := if s.socket.None? then 2 else 3;
            && PcOf(Advance(s, p, n - 1), p).Releasing?
            && var t := Advance(s, p, n);
               PcOf(t, p).Gone? && t.socket.None? && t.pid.None? && t.lock.None?
  {
    hide Step, StartUp, Probing;
    WhichPart(s, p, true);
    var a := Step(s, Act(p, true));
    WhichPart(a, p, true);
    var b := Step(a, Act(p, true));
    WhichPart(b, p, true);
    assert Advance(s, p, 0) == s && Advance(s, p, 1) == a && Advance(s, p, 2) == b;
    assert Advance(s, p, 3) == Step(b, Act(p, true));
  }

  /**
   So its files go also if the listener's own removal of the socket failed: they are gone at the moment it
   frees the lock, whatever the others do meanwhile.
   */
  lemma {:induction false} RemovalIsRetried(socket: Option<SocketFile>, pid: Option<nat>, es: seq<Event>, fs: seq<Event>, p: nat)
    requires PcOf(Run(socket, pid, es), p).Unlinked?
    requires Proceeds(fs, p) && fs != [] && Own(fs[|fs| - 1], p)
    requires Owned(fs, p) == if Run(socket, pid, es).socket.None? then 4 else 5
    ensures var t := Run(socket, pid, es + fs);
            PcOf(t, p).Gone? && t.socket.None? && t.pid.None? && t.lock.None?
  {
    hide Run, Advance, Inv;
    var s := Run(socket, pid, es);
    RunKeeps(socket, pid, es);
    TriesAgain(s, p);
    forall k | 1 <= k < Owned(fs, p) ensures HoldsLock(PcOf(Advance(s, p, k), p)) {
      HeldSoFar(s, p, k, Owned(fs, p) - 1);
    }
    SeesItselfAlone(socket, pid, es, fs, p);
  }

  /** The way out after an error past `net.Listen`: the listener goes with its socket, then the lock. */
  lemma {:induction false} Abandons(s: State, p: nat)
    requires PcOf(s, p).Abandoning?
    ensures PcOf(Advance(s, p, 2), p).Releasing?
    ensures var t := Advance(s, p, 3); PcOf(t, p).Gone? && t.socket.None? && t.lock.None? && t.pid == s.pid
  {
    hide Step, StartUp, Probing;
    WhichPart(s, p, true);
    var a := Step(s, Act(p, true));
    assert PcOf(a, p).AbandonUnlinked? && a.socket.None? && a.pid == s.pid;
    WhichPart(a, p, true);
    var b := Step(a, Act(p, true));
    assert PcOf(b, p).Releasing? && b.socket.None? && b.pid == s.pid;
    WhichPart(b, p, true);
    assert Advance(s, p, 0) == s && Advance(s, p, 1) == a && Advance(s, p, 2) == b;
  }

  /** Before that, once the socket is noted, `removeOwnedSocket`. */
  lemma {:induction false} BacksOff(s: State, p: nat)
    requires Inv(s) && PcOf(s, p).Backing?
    ensures var t := Advance(s, p, 2); PcOf(t, p).Abandoning? && t.pid == s.pid
  {
    hide Step, StartUp, Probing, Exclusive, PidOk;
    assert PcOk(s, p);
    WhichPart(s, p, true);
    var a := Step(s, Act(p, true));
    assert PcOf(a, p).BackRemoving? && a.pid == s.pid;
    WhichPart(a, p, true);
    assert Advance(s, p, 0) == s && Advance(s, p, 1) == a;
  }

  lemma {:induction false} AdvanceOn(s: State, p: nat, m: nat, n: nat)
    ensures Advance(Advance(s, p, m), p, n) == Advance(s, p, m + n)
  {
    hide Step;
    if n > 0 { AdvanceOn(s, p, m, n - 1); }
  }

  lemma {:induction false} BacksAway(s: State, p: nat)
    requires Inv(s) && (PcOf(s, p).Backing? || PcOf(s, p).Abandoning?)
    ensures var n := if PcOf(s, p).Backing? then 5 else 3;
            && PcOf(Advance(s, p, n - 1), p).Releasing?
            && var t := Advance(s, p, n);
               PcOf(t, p).Gone? && t.socket.None? && t.lock.None? && t.pid == s.pid
  {
    hide Step, Inv, Advance;
    if PcOf(s, p).Backing? {
      BacksOff(s, p);
      Abandons(Advance(s, p, 2), p);
      AdvanceOn(s, p, 2, 2);
      AdvanceOn(s, p, 2, 3);
    } else {
      Abandons(s, p);
    }
  }

  /**
   A daemon that fails after it listens takes its socket with it and leaves the PID file alone: whatever the
   others do meanwhile, that is so at the moment it frees the lock.
   */
  lemma {:induction false} FailedStartLeavesNoSocket(socket: Option<SocketFile>, pid: Option<nat>, es: seq<Event>, fs: seq<Event>, p: nat)
    requires PcOf(Run(socket, pid, es), p).Backing? || PcOf(Run(socket, pid, es), p).Abandoning?
    requires Proceeds(fs, p) && fs != [] && Own(fs[|fs| - 1], p)
    requires Owned(fs, p) == if PcOf(Run(socket, pid, es), p).Backing? then 5 else 3
    ensures var s, t := Run(socket, pid, es), Run(socket, pid, es + fs);
            PcOf(t, p).Gone? && t.socket.None? && t.lock.None? && t.pid == s.pid
  {
    hide Run, Advance, Inv;
    var s := Run(socket, pid, es);
    RunKeeps(socket, pid, es);
    BacksAway(s, p);
    forall k | 1 <= k < Owned(fs, p) ensures HoldsLock(PcOf(Advance(s, p, k), p)) {
      HeldSoFar(s, p, k, Owned(fs, p) - 1);
    }
    SeesItselfAlone(socket, pid, es, fs, p);
  }

  // ---------- every process comes to its end ----------

  /** How many more steps a process takes at most. */
  function ToGo(pc: Pc): nat {
    match pc
    case Starting => 13
    case Locked => 12
    case Found => 11
    case Stale => 10
    case Clear => 9
    case Bound(_) => 8
    case Noted(_, _) => 7
    case Serving(_, _) => 6
    case Unlinked(_, _) => 5
    case Drained(_) => 4
    case PidGone(_) => 3
    case Removing(_) => 2
    case Releasing => 1
    case Backing(_, _) => 5
    case BackRemoving(_) => 4
    case Abandoning(_) => 3
    case AbandonUnlinked(_) => 2
    case ProbeStarting => 6
    case ProbeDenied => 1
    case ProbeLocked => 5
    case ProbeFound => 4
    case ProbeStale => 3
    case ProbeClear => 2
    case ProbeReleasing => 1
    case Reported(_) => 0
    case Gone => 0
    case Crashed => 0
  }

  lemma {:induction false} OwnStepNearer(s: State, p: nat, ok: bool)
    ensures var before, after := ToGo(PcOf(s, p)), ToGo(PcOf(Step(s, Act(p, ok)), p));
            if before == 0 then after == 0 else after < before
  {
    hide Answered, Step, ToGo;
    WhichPart(s, p, ok);
    if IsStartUp(PcOf(s, p)) {
      StartUpNearer(s, p, ok);
    } else if IsProbe(PcOf(s, p)) {
      ProbingNearer(s, p, ok);
    } else {
      ShutDownNearer(s, p, ok);
    }
  }

  lemma {:induction false} StartUpNearer(s: State, p: nat, ok: bool)
    requires IsStartUp(PcOf(s, p))
    ensures ToGo(PcOf(StartUp(s, p, ok), p)) < ToGo(PcOf(s, p))
  {
    hide Answered;
  }

  lemma {:induction false} ProbingNearer(s: State, p: nat, ok: bool)
    requires IsProbe(PcOf(s, p))
    ensures ToGo(PcOf(Probing(s, p, ok), p)) < ToGo(PcOf(s, p))
  {
    hide Answered;
  }

  lemma {:induction false} ShutDownNearer(s: State, p: nat, ok: bool)
    requires !IsStartUp(PcOf(s, p)) && !IsProbe(PcOf(s, p))
    ensures var before, after := ToGo(PcOf(s, p)), ToGo(PcOf(ShutDown(s, p, ok), p));
            if before == 0 then after == 0 else after < before
  {
  }

  lemma {:induction false} GoesOn(socket: Option<SocketFile>, pid: Option<nat>, es: seq<Event>, fs: seq<Event>, p: nat)
    requires p < |Run(socket, pid, es).pcs|
    ensures p < |Run(socket, pid, es + fs).pcs|
    ensures var now := ToGo(PcOf(Run(socket, pid, es + fs), p));
            now == 0 || now + Owned(fs, p) <= ToGo(PcOf(Run(socket, pid, es), p))
    decreases |fs|
  {
    hide Step, ToGo;
    if fs == [] {
      assert es + fs == es;
    } else {
      var n := |fs| - 1;
      GoesOn(socket, pid, es, fs[..n], p);
      assert es + fs == es + fs[..n] + [fs[n]];
      RunSnoc(socket, pid, es + fs[..n], fs[n]);
      var t := Run(socket, pid, es + fs[..n]);
      StepGrows(t, fs[n]);
      if Own(fs[n], p) {
        OwnStepNearer(t, p, fs[n].ok);
      } else if fs[n] == Crash(p) {
        CrashEnds(t, p);
      } else {
        OneLeavesPc(t, fs[n], p);
      }
    }
  }

  lemma {:induction false} CrashEnds(s: State, p: nat)
    ensures ToGo(PcOf(Step(s, Crash(p)), p)) == 0
  {
  }

  /**
   No process is ever stuck, whatever its calls come to and the others do: it is over after at most thirteen
   of its own steps, and then it does not hold the lock.
   */
  lemma {:induction false} EveryProcessEnds(socket: Option<SocketFile>, pid: Option<nat>, es: seq<Event>, fs: seq<Event>, p: nat)
    requires p < |Run(socket, pid, es).pcs| && Owned(fs, p) >= 13
    ensures var t := Run(socket, pid, es + fs);
            (PcOf(t, p).Gone? || PcOf(t, p).Reported? || PcOf(t, p).Crashed?) && t.lock != Some(p)
  {
    hide Run;
    GoesOn(socket, pid, es, fs, p);
    RunKeeps(socket, pid, es + fs);
  }

  lemma {:induction false} ReachesClear(s: State, p: nat)
    requires Inv(s) && s.lock.None? && PcOf(s, p).ProbeStarting?
    ensures var stale := s.socket.Some? && s.socket.value.isSocket;
            var t := Advance(s, p, if stale then 4 else 2);
            PcOf(t, p).ProbeClear? && t.socket == if stale then None else s.socket
  {
    hide Inv, Answered, Step, StartUp, ShutDown;
    WhichPart(s, p, true);
    var locked := Step(s, Act(p, true));
    assert Advance(s, p, 0) == s && Advance(s, p, 1) == locked;
    KeepsProbing(s, p, true);
    WhichPart(locked, p, true);
    var next := Step(locked, Act(p, true));
    assert Advance(s, p, 2) == next;
    if s.socket.Some? && s.socket.value.isSocket {
      assert PcOf(next, p).ProbeFound?;
      KeepsProbing(locked, p, true);
      NobodyListens(next, p);
      WhichPart(next, p, true);
      var stale := Step(next, Act(p, true));
      WhichPart(stale, p, true);
      assert Advance(s, p, 3) == stale && Advance(s, p, 4) == Step(stale, Act(p, true));
    }
  }

  lemma {:induction false} CleansUp(s: State, p: nat)
    requires Inv(s) && s.lock.None? && PcOf(s, p).ProbeStarting?
    ensures var stale := s.socket.Some? && s.socket.value.isSocket;
            var n := if stale then 6 else 4;
            var t := Advance(s, p, n);
            && PcOf(Advance(s, p, n - 1), p).ProbeReleasing?
            && PcOf(t, p).Gone? && t.lock.None? && t.pid.None?
            && t.socket == if stale then None else s.socket
  {
    hide Inv;
    ReachesClear(s, p);
    var n: nat := if s.socket.Some? && s.socket.value.isSocket then 4 else 2;
    var clear := Advance(s, p, n);
    var releasing := Step(clear, Act(p, true));
    assert PcOf(releasing, p).ProbeReleasing? && releasing.pid.None?;
    assert Advance(s, p, n + 1) == releasing && Advance(s, p, n + 2) == Step(releasing, Act(p, true));
  }

  /**
   A probe that finds the lock free removes a stale socket and the PID file: whatever the others do
   meanwhile, they are gone at the moment it frees the lock again.
   */
  lemma {:induction false} ProbeCleans(socket: Option<SocketFile>, pid: Option<nat>, es: seq<Event>, fs: seq<Event>, p: nat)
    requires Run(socket, pid, es).lock.None? && PcOf(Run(socket, pid, es), p).ProbeStarting?
    requires Proceeds(fs, p) && fs != [] && Own(fs[|fs| - 1], p)
    requires var s := Run(socket, pid, es); Owned(fs, p) == if s.socket.Some? && s.socket.value.isSocket then 6 else 4
    ensures var s, t := Run(socket, pid, es), Run(socket, pid, es + fs);
            && PcOf(t, p).Gone? && t.lock.None? && t.pid.None?
            && t.socket == if s.socket.Some? && s.socket.value.isSocket then None else s.socket
  {
    hide Run, Advance, Inv;
    var s := Run(socket, pid, es);
    RunKeeps(socket, pid, es);
    CleansUp(s, p);
    forall k | 1 <= k < Owned(fs, p) ensures HoldsLock(PcOf(Advance(s, p, k), p)) {
      HeldSoFar(s, p, k, Owned(fs, p) - 1);
    }
    SeesItselfAlone(socket, pid, es, fs, p);
  }

  // ---------- calls that fail ----------

  /**
   A call that fails leaves socket and PID file as they are, whoever makes it and wherever it stands, and a
   process that fails before it has the lock is gone.
   */
  lemma {:induction false} FailedCallChangesNoFile(socket: Option<SocketFile>, pid: Option<nat>, es: seq<Event>, p: nat)
    ensures var s, t := Run(socket, pid, es), Run(socket, pid, es + [Act(p, false)]);
            && t.socket == s.socket && t.pid == s.pid
            && (PcOf(s, p).Starting? || PcOf(s, p).ProbeStarting? ==> PcOf(t, p).Gone? && t.lock == s.lock)
  {
    RunSnoc(socket, pid, es, Act(p, false));
    hide Run, Step, Answered;
    WhichPart(Run(socket, pid, es), p, false);
  }

  lemma {:induction false} HolderUndisturbed(socket: Option<SocketFile>, pid: Option<nat>, es: seq<Event>, fs: seq<Event>, p: nat)
    requires HoldsLock(PcOf(Run(socket, pid, es), p)) && forall k :: 0 <= k < |fs| ==> !Own(fs[k], p) && fs[k] != Crash(p)
    ensures View(Run(socket, pid, es + fs), p) == View(Run(socket, pid, es), p)
    decreases |fs|
  {
    hide Step, Inv, HoldsLock;
    if fs == [] {
      assert es + fs == es;
    } else {
      var n := |fs| - 1;
      HolderUndisturbed(socket, pid, es, fs[..n], p);
      assert es + fs == es + fs[..n] + [fs[n]];
      RunSnoc(socket, pid, es + fs[..n], fs[n]);
      RunKeeps(socket, pid, es + fs[..n]);
      OthersUnseen(Run(socket, pid, es + fs[..n]), fs[n], p);
    }
  }

  /**
   A prober that fails to look at the socket, or to remove it or the PID file, cleans no further: it frees
   the lock with the files as they were, whatever the others do meanwhile.
   */
  lemma {:induction false} FailedProbeLeavesFiles(socket: Option<SocketFile>, pid: Option<nat>, es: seq<Event>, fs: seq<Event>, p: nat, ok: bool)
    requires var pc := PcOf(Run(socket, pid, es), p); pc.ProbeLocked? || pc.ProbeStale? || pc.ProbeClear?
    requires forall k :: 0 <= k < |fs| ==> !Own(fs[k], p) && fs[k] != Crash(p)
    ensures var s, t := Run(socket, pid, es), Run(socket, pid, es + [Act(p, false)] + fs + [Act(p, ok)]);
            PcOf(t, p).Gone? && t.lock.None? && t.socket == s.socket && t.pid == s.pid
  {
    hide Run, Step, Answered, StartUp, ShutDown;
    var s := Run(socket, pid, es);
    RunSnoc(socket, pid, es, Act(p, false));
    WhichPart(s, p, false);
    HolderUndisturbed(socket, pid, es + [Act(p, false)], fs, p);
    RunSnoc(socket, pid, es + [Act(p, false)] + fs, Act(p, ok));
    WhichPart(Run(socket, pid, es + [Act(p, false)] + fs), p, ok);
  }

  /** A daemon that gives up before it serves. */
  predicate GivesUp(pc: Pc) {
    pc.Releasing? || pc.Backing? || pc.BackRemoving? || pc.Abandoning? || pc.AbandonUnlinked? || pc.Gone? || pc.Crashed?
  }

  lemma {:induction false} GivesUpStays(s: State, e: Event, p: nat)
    requires p < |s.pcs| && GivesUp(PcOf(s, p))
    ensures p < |Step(s, e).pcs| && GivesUp(PcOf(Step(s, e), p))
  {
    hide Answered, StartUp, Probing;
    if !Own(e, p) && e != Crash(p) { OneLeavesPc(s, e, p); }
  }

  lemma {:induction false} NeverServes(socket: Option<SocketFile>, pid: Option<nat>, es: seq<Event>, fs: seq<Event>, p: nat)
    requires p < |Run(socket, pid, es).pcs| && GivesUp(PcOf(Run(socket, pid, es), p))
    ensures p < |Run(socket, pid, es + fs).pcs| && GivesUp(PcOf(Run(socket, pid, es + fs), p))
    decreases |fs|
  {
    hide Step, GivesUp;
    if fs == [] {
      assert es + fs == es;
    } else {
      var n := |fs| - 1;
      NeverServes(socket, pid, es, fs[..n], p);
      assert es + fs == es + fs[..n] + [fs[n]];
      RunSnoc(socket, pid, es + fs[..n], fs[n]);
      GivesUpStays(Run(socket, pid, es + fs[..n]), fs[n], p);
    }
  }

  /** A daemon with a call that fails on its way to serving, the dial of an old socket aside, never serves. */
  lemma {:induction false} FailedStartNeverServes(socket: Option<SocketFile>, pid: Option<nat>, es: seq<Event>, fs: seq<Event>, p: nat)
    requires var pc := PcOf(Run(socket, pid, es), p);
             pc.Starting? || pc.Locked? || pc.Stale? || pc.Clear? || pc.Bound? || pc.Noted?
    ensures !PcOf(Run(socket, pid, es + [Act(p, false)] + fs), p).Serving?
  {
    RunSnoc(socket, pid, es, Act(p, false));
    NeverServes(socket, pid, es + [Act(p, false)], fs, p);
  }

  // ---------- what a probe reports ----------

  /** Nothing but its own steps and a crash moves a process. */
  lemma {:induction false} OthersLeavePc(socket: Option<SocketFile>, pid: Option<nat>, es: seq<Event>, fs: seq<Event>, p: nat)
    requires p < |Run(socket, pid, es).pcs| && forall k :: 0 <= k < |fs| ==> !Own(fs[k], p) && fs[k] != Crash(p)
    ensures p < |Run(socket, pid, es + fs).pcs| && PcOf(Run(socket, pid, es + fs), p) == PcOf(Run(socket, pid, es), p)
    decreases |fs|
  {
    if fs == [] {
      assert es + fs == es;
    } else {
      var n := |fs| - 1;
      OthersLeavePc(socket, pid, es, fs[..n], p);
      assert es + fs == es + fs[..n] + [fs[n]];
      RunSnoc(socket, pid, es + fs[..n], fs[n]);
      OneLeavesPc(Run(socket, pid, es + fs[..n]), fs[n], p);
    }
  }

  lemma {:induction false} OneLeavesPc(s: State, e: Event, p: nat)
    requires p < |s.pcs| && !Own(e, p) && e != Crash(p)
    ensures p < |Step(s, e).pcs| && PcOf(Step(s, e), p) == PcOf(s, p)
  {
    hide StartUp, ShutDown, Probing;
    if e.Act? { ActLeavesPc(s, e.p, e.ok, p); }
  }

  lemma {:induction false} ActLeavesPc(s: State, q: nat, ok: bool, p: nat)
    requires p < |s.pcs| && q != p
    ensures p < |Step(s, Act(q, ok)).pcs| && PcOf(Step(s, Act(q, ok)), p) == PcOf(s, p)
  {
    hide Answered, Step, SameFile;
    WhichPart(s, q, ok);
  }

  /**
   A prober that finds the lock taken reports the PID file as it is at the moment it reads it, whatever the
   others do before: the pid of the daemon that serves then, if one does.
   */
  lemma {:induction false} ProbeReports(socket: Option<SocketFile>, pid: Option<nat>, es: seq<Event>, fs: seq<Event>, p: nat, ok: bool)
    requires PcOf(Run(socket, pid, es), p).ProbeStarting? && Run(socket, pid, es).lock.Some?
    requires forall k :: 0 <= k < |fs| ==> !Own(fs[k], p) && fs[k] != Crash(p)
    ensures var before := Run(socket, pid, es + [Act(p, true)] + fs);
            var after := Run(socket, pid, es + [Act(p, true)] + fs + [Act(p, ok)]);
            && PcOf(after, p) == Reported(before.pid)
            && forall q :: 0 <= q < |before.pcs| && before.pcs[q].Serving? ==> PcOf(after, p) == Reported(Some(q))
  {
    hide Run, Answered;
    RunSnoc(socket, pid, es, Act(p, true));
    OthersLeavePc(socket, pid, es + [Act(p, true)], fs, p);
    RunSnoc(socket, pid, es + [Act(p, true)] + fs, Act(p, ok));
    var before := Run(socket, pid, es + [Act(p, true)] + fs);
    forall q | 0 <= q < |before.pcs| && before.pcs[q].Serving? ensures before.pid == Some(q) {
      ServingOwnsFiles(socket, pid, es + [Act(p, true)] + fs, q);
    }
  }

  /** A prober that has the lock, or is on its way out after it, does not report. */
  predicate CleansInstead(pc: Pc) {
    pc.ProbeLocked? || pc.ProbeFound? || pc.ProbeStale? || pc.ProbeClear? || pc.ProbeReleasing? || pc.Gone? || pc.Crashed?
  }

  lemma {:induction false} NeverReports(socket: Option<SocketFile>, pid: Option<nat>, es: seq<Event>, fs: seq<Event>, p: nat)
    requires p < |Run(socket, pid, es).pcs| && CleansInstead(PcOf(Run(socket, pid, es), p))
    ensures p < |Run(socket, pid, es + fs).pcs| && CleansInstead(PcOf(Run(socket, pid, es + fs), p))
    decreases |fs|
  {
    hide Step;
    if fs == [] {
      assert es + fs == es;
    } else {
      var n := |fs| - 1;
      NeverReports(socket, pid, es, fs[..n], p);
      assert es + fs == es + fs[..n] + [fs[n]];
      RunSnoc(socket, pid, es + fs[..n], fs[n]);
      CleansOn(Run(socket, pid, es + fs[..n]), fs[n], p);
    }
  }

  lemma {:induction false} CleansOn(s: State, e: Event, p: nat)
    requires p < |s.pcs| && CleansInstead(PcOf(s, p))
    ensures p < |Step(s, e).pcs| && CleansInstead(PcOf(Step(s, e), p))
  {
    hide Answered;
    if !Own(e, p) && e != Crash(p) {
      OneLeavesPc(s, e, p);
    }
  }

  /** A new prober reports what the PID file holds, from any state in which the lock is held. */
  lemma {:induction false} NewProbeReports(socket: Option<SocketFile>, pid: Option<nat>, es: seq<Event>)
    requires Run(socket, pid, es).lock.Some?
    ensures var p := |Run(socket, pid, es).pcs|;
            PcOf(Run(socket, pid, es + [Spawn(false)] + [Act(p, true)] + [] + [Act(p, true)]), p) == Reported(Run(socket, pid, es).pid)
  {
    hide Run, Answered;
    var p := |Run(socket, pid, es).pcs|;
    RunSnoc(socket, pid, es, Spawn(false));
    ProbeReports(socket, pid, es + [Spawn(false)], [], p, true);
    RunSnoc(socket, pid, es + [Spawn(false)], Act(p, true));
    assert es + [Spawn(false)] + [Act(p, true)] + [] == es + [Spawn(false)] + [Act(p, true)];
  }

  /** A new daemon serves, from any state in which the lock is free, if its calls succeed, whatever the others do. */
  lemma {:induction false} NewDaemonServes(socket: Option<SocketFile>, pid: Option<nat>, es: seq<Event>, fs: seq<Event>)
    requires Run(socket, pid, es).lock.None?
    requires var s := Run(socket, pid, es); Proceeds(fs, |s.pcs|) && Owned(fs, |s.pcs|) == if s.socket.None? then 5 else 7
    ensures PcOf(Run(socket, pid, es + [Spawn(true)] + fs), |Run(socket, pid, es).pcs|).Serving?
  {
    hide Run, Answered;
    RunSnoc(socket, pid, es, Spawn(true));
    RestartSucceeds(socket, pid, es + [Spawn(true)], fs, |Run(socket, pid, es).pcs|);
  }

  /** So a prober that can open and try the lock comes to report exactly when the lock is held as it tries. */
  lemma {:induction false} ProbeReportsExactly(socket: Option<SocketFile>, pid: Option<nat>, es: seq<Event>, p: nat)
    requires PcOf(Run(socket, pid, es), p).ProbeStarting?
    ensures (exists fs :: PcOf(Run(socket, pid, es + [Act(p, true)] + fs), p).Reported?) <==> Run(socket, pid, es).lock.Some?
  {
    hide Run, Answered;
    RunSnoc(socket, pid, es, Act(p, true));
    if Run(socket, pid, es).lock.Some? {
      ProbeReports(socket, pid, es, [], p, true);
      assert es + [Act(p, true)] + [] == es + [Act(p, true)];
      assert PcOf(Run(socket, pid, es + [Act(p, true)] + [Act(p, true)]), p).Reported?;
    } else {
      forall fs ensures !PcOf(Run(socket, pid, es + [Act(p, true)] + fs), p).Reported? {
        NeverReports(socket, pid, es + [Act(p, true)], fs, p);
      }
    }
  }

  /** A daemon that finds the lock taken exits and leaves everything as it is. */
  lemma {:induction false} SecondDaemonExits(socket: Option<SocketFile>, pid: Option<nat>, es: seq<Event>, p: nat, ok: bool)
    requires PcOf(Run(socket, pid, es), p).Starting? && Run(socket, pid, es).lock.Some?
    ensures var s, t := Run(socket, pid, es), Run(socket, pid, es + [Act(p, ok)]);
            PcOf(t, p) == Gone && (t.lock, t.socket, t.pid) == (s.lock, s.socket, s.pid)
  {
    RunSnoc(socket, pid, es, Act(p, ok));
  }

  /** After a crash, a new holder can have the lock while the PID file still names the dead daemon. */
  lemma {:induction false} StalePidAfterCrash() returns (es: seq<Event>)
    ensures var s := Run(None, None, es); s.lock == Some(1) && s.pid == Some(0) && PcOf(s, 0).Crashed?
  {
    es := [Spawn(true), Spawn(true)];
    RunSnoc(None, None, [], Spawn(true));
    RunSnoc(None, None, [Spawn(true)], Spawn(true));
    assert [] + [Spawn(true)] == [Spawn(true)] && [Spawn(true)] + [Spawn(true)] == es;
    var s := Run(None, None, es);
    assert s == State([Starting, Starting], None, None, None, 0, true);
    var pcs := [Locked, Clear, Bound(0), Noted(0, 0), Serving(0, 0)];
    for n := 0 to |pcs|
      invariant var t := Run(None, None, es);
                && t.pcs == [if n == 0 then Starting else pcs[n - 1], Starting] && t.next == (if n < 3 then 0 else 1)
                && t.lock == (if n == 0 then None else Some(0)) && t.pid == (if n == 5 then Some(0) else None)
                && t.socket == (if n < 3 then None else Some(SocketFile(0, true)))
    {
      RunSnoc(None, None, es, Act(0, true));
      es := es + [Act(0, true)];
    }
    RunSnoc(None, None, es, Crash(0));
    es := es + [Crash(0)];
    RunSnoc(None, None, es, Act(1, true));
    es := es + [Act(1, true)];
  }
}
