/**
 The single-instance protocol (internal/daemon/lock.go and Server.Run in internal/daemon/server.go):
 any number of daemons and probers over one file lock, one socket path and one PID file. Every event
 is one system call of one process, with its outcome, or a crash. The lock is exclusive and goes free
 when its holder exits or crashes; files stay behind. An event that is not possible changes nothing.
 */
module SingleInstance {
  import opened Basics

  // ---------- processes ----------

  /**
   Where a process stands. An `inode` is the socket it has bound and is listening on; `owned` is the
   file its `os.Lstat` saw at the path.
   */
  datatype Pc =
    // Server.Run, up to serving
    | Starting
    | Locked
    | Found
    | Stale
    | Clear
    | Bound(inode: nat)
    | Noted(inode: nat, owned: nat)
    | Serving(inode: nat, owned: nat)
    // its way out: ln.Close in serve, then the deferred calls
    | Unlinked(inode: nat, owned: nat)
    | Drained(owned: nat)
    | PidGone(owned: nat)
    | Removing(owned: nat)
    | Releasing
    // its way out after an error past Listen
    | Backing(inode: nat, owned: nat)
    | BackRemoving(inode: nat)
    | Abandoning(inode: nat)
    | AbandonUnlinked(inode: nat)
    // Probe
    | ProbeStarting
    | ProbeDenied
    | ProbeLocked
    | ProbeFound
    | ProbeStale
    | ProbeClear
    | ProbeReleasing
    | Reported(pid: Option<nat>)
    | Gone
    | Crashed

  /** The file at the socket path. */
  datatype SocketFile = SocketFile(inode: nat, isSocket: bool)

  /** `clean`: so far no process crashed and no removal of the PID file failed. */
  datatype State = State(
    pcs: seq<Pc>, lock: Option<nat>, socket: Option<SocketFile>, pid: Option<nat>, next: nat, clean: bool)

  datatype Event =
    | Spawn(daemon: bool)
    | Act(p: nat, ok: bool)
    | Crash(p: nat)

  function PcOf(s: State, p: nat): Pc {
    if p < |s.pcs| then s.pcs[p] else Gone
  }

  /** The socket a process has open for accepting. */
  function ListensOn(pc: Pc): Option<nat> {
    match pc
    case Bound(i) => Some(i)
    case Noted(i, _) => Some(i)
    case Serving(i, _) => Some(i)
    case Unlinked(i, _) => Some(i)
    case Backing(i, _) => Some(i)
    case BackRemoving(i) => Some(i)
    case Abandoning(i) => Some(i)
    case AbandonUnlinked(i) => Some(i)
    case _ => None
  }

  predicate HoldsLock(pc: Pc) {
    !pc.Starting? && !pc.ProbeStarting? && !pc.ProbeDenied? && !pc.Reported? && !pc.Gone? && !pc.Crashed?
  }

  /** A connection to the path would be answered. */
  predicate Answered(s: State) {
    s.socket.Some? && exists p :: 0 <= p < |s.pcs| && ListensOn(s.pcs[p]) == Some(s.socket.value.inode)
  }

  // ---------- the steps ----------

  function To(s: State, p: nat, pc: Pc): State {
    if p < |s.pcs| then s.(pcs := s.pcs[p := pc]) else s
  }

  function Unlink(s: State, ok: bool): State {
    if ok then s.(socket := None) else s
  }

  predicate SameFile(s: State, owned: nat) {
    s.socket.Some? && s.socket.value.inode == owned
  }

  /** Acquiring the lock, `prepareSocket`, `net.Listen` and the PID file. */
  function StartUp(s: State, p: nat, ok: bool): State {
    match PcOf(s, p)
    case Starting => if ok && s.lock.None? then To(s, p, Locked).(lock := Some(p)) else To(s, p, Gone)
    case Locked => if !ok then To(s, p, Releasing) else if s.socket.None? then To(s, p, Clear) else To(s, p, Found)
    case Found => if ok && Answered(s) then To(s, p, Releasing) else To(s, p, Stale)
    case Stale => if ok && s.socket.Some? then Unlink(To(s, p, Clear), true) else To(s, p, Releasing)
    case Clear =>
      if ok && s.socket.None? then
        To(s, p, Bound(s.next)).(socket := Some(SocketFile(s.next, true)), next := s.next + 1)
      else To(s, p, Releasing)
    case Bound(i) => if ok && s.socket.Some? then To(s, p, Noted(i, s.socket.value.inode)) else To(s, p, Abandoning(i))
    case Noted(i, o) => if ok then To(s, p, Serving(i, o)).(pid := Some(p)) else To(s, p, Backing(i, o))
    case _ => s
  }

  /** The end of `serve` and the deferred calls, last deferred first. */
  function ShutDown(s: State, p: nat, ok: bool): State {
    match PcOf(s, p)
    case Serving(i, o) => Unlink(To(s, p, Unlinked(i, o)), ok)
    case Unlinked(_, o) => To(s, p, Drained(o))
    case Drained(o) => if ok then To(s, p, PidGone(o)).(pid := None) else To(s, p, PidGone(o)).(clean := false)
    case PidGone(o) => if ok && SameFile(s, o) then To(s, p, Removing(o)) else To(s, p, Releasing)
    case Removing(_) => Unlink(To(s, p, Releasing), ok)
    case Releasing => To(s, p, Gone).(lock := None)
    case Backing(i, o) => if ok && SameFile(s, o) then To(s, p, BackRemoving(i)) else To(s, p, Abandoning(i))
    case BackRemoving(i) => Unlink(To(s, p, Abandoning(i)), ok)
    case Abandoning(i) => Unlink(To(s, p, AbandonUnlinked(i)), ok)
    case AbandonUnlinked(_) => To(s, p, Releasing)
    case _ => s
  }

  /** `Probe`, with `cleanupUnlocked` under the lock. */
  function Probing(s: State, p: nat, ok: bool): State {
    match PcOf(s, p)
    case ProbeStarting =>
      if !ok then To(s, p, Gone)
      else if s.lock.Some? then To(s, p, ProbeDenied)
      else To(s, p, ProbeLocked).(lock := Some(p))
    case ProbeDenied => To(s, p, Reported(s.pid))
    case ProbeLocked =>
      if !ok then To(s, p, ProbeReleasing)
      else if s.socket.Some? && s.socket.value.isSocket then To(s, p, ProbeFound)
      else To(s, p, ProbeClear)
    case ProbeFound => if ok && Answered(s) then To(s, p, ProbeReleasing) else To(s, p, ProbeStale)
    case ProbeStale => if ok then Unlink(To(s, p, ProbeClear), true) else To(s, p, ProbeReleasing)
    case ProbeClear =>
      if ok then To(s, p, ProbeReleasing).(pid := None) else To(s, p, ProbeReleasing).(clean := s.clean && s.pid.None?)
    case ProbeReleasing => To(s, p, Gone).(lock := None)
    case _ => s
  }

  predicate IsProbe(pc: Pc) {
    pc.ProbeStarting? || pc.ProbeDenied? || pc.ProbeLocked? || pc.ProbeFound? || pc.ProbeStale? || pc.ProbeClear?
    || pc.ProbeReleasing?
  }

  predicate IsStartUp(pc: Pc) {
    pc.Starting? || pc.Locked? || pc.Found? || pc.Stale? || pc.Clear? || pc.Bound? || pc.Noted?
  }

  function DoCrash(s: State, p: nat): State {
    if p >= |s.pcs| || s.pcs[p].Gone? || s.pcs[p].Reported? || s.pcs[p].Crashed? then s
    else To(s, p, Crashed).(lock := if s.lock == Some(p) then None else s.lock, clean := false)
  }

  function Step(s: State, e: Event): State {
    match e
    case Spawn(daemon) => s.(pcs := s.pcs + [if daemon then Starting else ProbeStarting])
    case Act(p, ok) =>
      if IsStartUp(PcOf(s, p)) then StartUp(s, p, ok)
      else if IsProbe(PcOf(s, p)) then Probing(s, p, ok)
      else ShutDown(s, p, ok)
    case Crash(p) => DoCrash(s, p)
  }

  /** Nobody runs; any files may be left over from before. */
  function Start(socket: Option<SocketFile>, pid: Option<nat>): State {
    State([], None, socket, pid, if socket.Some? then socket.value.inode + 1 else 0, pid.None?)
  }

  function Run(socket: Option<SocketFile>, pid: Option<nat>, es: seq<Event>): State {
    if es == [] then Start(socket, pid) else Step(Run(socket, pid, es[..|es| - 1]), es[|es| - 1])
  }

  // ---------- the invariant ----------

  /** The socket a daemon bound is still at the path, or nothing is. */
  predicate OwnOrNone(s: State, inode: nat) {
    s.socket.None? || s.socket == Some(SocketFile(inode, true))
  }

  /** What a process at a point of its run knows of the files. */
  ghost predicate PcOk(s: State, p: nat)
    requires p < |s.pcs|
  {
    match s.pcs[p]
    case Clear => s.socket.None?
    case Bound(i) => s.socket == Some(SocketFile(i, true))
    case Noted(i, o) => o == i && s.socket == Some(SocketFile(i, true))
    case Serving(i, o) => o == i && s.socket == Some(SocketFile(i, true)) && s.pid == Some(p)
    case Unlinked(i, o) => o == i && s.pid == Some(p) && OwnOrNone(s, o)
    case Drained(o) => s.pid == Some(p) && OwnOrNone(s, o)
    case PidGone(o) => OwnOrNone(s, o)
    case Removing(o) => s.socket == Some(SocketFile(o, true))
    case Backing(i, o) => o == i && s.socket == Some(SocketFile(i, true))
    case BackRemoving(i) => s.socket == Some(SocketFile(i, true))
    case Abandoning(i) => OwnOrNone(s, i)
    case AbandonUnlinked(i) => OwnOrNone(s, i)
    case Found => s.socket.Some?
    case Stale => s.socket.Some?
    case _ => true
  }

  ghost predicate Exclusive(s: State) {
    && (s.lock.Some? ==> s.lock.value < |s.pcs|)
    && forall p :: 0 <= p < |s.pcs| ==> (HoldsLock(s.pcs[p]) <==> s.lock == Some(p))
  }

  ghost predicate AllOk(s: State) {
    forall p :: 0 <= p < |s.pcs| ==> PcOk(s, p)
  }

  /** While the run is clean, a PID file names the lock holder, a daemon between writing and removing it. */
  ghost predicate PidOk(s: State) {
    s.clean && s.pid.Some? ==>
      && s.lock == s.pid
      && s.pid.value < |s.pcs|
      && (s.pcs[s.pid.value].Serving? || s.pcs[s.pid.value].Unlinked? || s.pcs[s.pid.value].Drained?)
  }

  ghost predicate Inv(s: State) {
    && Exclusive(s)
    && AllOk(s)
    && PidOk(s)
  }
}
