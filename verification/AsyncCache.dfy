/**
 The background blob writer (internal/cache/async_writer.go) as a step system: callers of `Write`,
 a bounded queue, any number of workers and `Close`, one atomic operation or Put at a time. An event
 that is not possible in a state changes nothing, so a run is any sequence of events.
 */
module AsyncCache {
  import opened Basics
  import opened Counting

  // ---------- writes, workers, state ----------

  /**
   How far one call of `Write` and its job have come. `Putting` means a Put is under way or next, by
   worker number `worker` or by the caller; `Stored` and `Counted` are the moments between the Put and
   the updates of the counters. Only a write that found the writer closed is `Late`.
   */
  datatype Phase =
    | Called
    | Admitted
    | InQueue
    | Putting(worker: Option<nat>)
    | Stored(ok: bool, worker: Option<nat>)
    | Counted(worker: Option<nat>)
    | Finished(ok: bool)
    | Late
    | LateFinished(ok: bool)

  /** The way a write took; `acked` when its `Queued.Add` is done. */
  datatype Path = Undecided | Direct | ViaQueue(acked: bool)

  datatype Job = Job(key: Bytes, data: Bytes, phase: Phase, path: Path)

  datatype Worker = Idle | Busy(job: nat) | Exited

  datatype State = State(
    jobs: seq<Job>, queue: seq<nat>, workers: seq<Worker>,
    closed: bool, queueClosed: bool,
    queued: nat, completed: nat, failed: nat, bytes: nat,
    puts: seq<nat>, store: map<Bytes, Bytes>)

  datatype Event =
    | Call(key: Bytes, data: Bytes)
    | CheckClosed(i: nat)
    | Select(i: nat)
    | Ack(i: nat)
    | Take(w: nat)
    | Put(i: nat, ok: bool)
    | Count(i: nat)
    | CountBytes(i: nat)
    | LatePut(i: nat, ok: bool)
    | MarkClosed
    | CloseQueue
    | Exit(w: nat)

  function Start(workers: nat, store: map<Bytes, Bytes>): State {
    State([], [], seq(workers, _ => Idle), false, false, 0, 0, 0, 0, [], store)
  }

  // ---------- the steps ----------

  function At(s: State, i: nat): Phase {
    if i < |s.jobs| then s.jobs[i].phase else LateFinished(false)
  }

  function Move(s: State, i: nat, phase: Phase): State {
    if i < |s.jobs| then s.(jobs := s.jobs[i := s.jobs[i].(phase := phase)]) else s
  }

  /** The worker that ran a job, if one did, goes back to the queue. */
  function Release(s: State, worker: Option<nat>): State {
    if worker.Some? && worker.value < |s.workers| then s.(workers := s.workers[worker.value := Idle]) else s
  }

  function DoCall(s: State, key: Bytes, data: Bytes): State {
    s.(jobs := s.jobs + [Job(key, data, Called, Undecided)])
  }

  function DoCheckClosed(s: State, i: nat): State {
    if !At(s, i).Called? then s else Move(s, i, if s.closed then Late else Admitted)
  }

  /** The capacity test and the `select`: queue the job if there is room, otherwise Put it here. */
  function DoSelect(capacity: nat, s: State, i: nat): State {
    if !At(s, i).Admitted? then s
    else if |s.queue| < capacity then
      s.(jobs := s.jobs[i := s.jobs[i].(phase := InQueue, path := ViaQueue(false))], queue := s.queue + [i])
    else
      s.(jobs := s.jobs[i := s.jobs[i].(phase := Putting(None), path := Direct)])
  }

  function DoAck(s: State, i: nat): State {
    if i < |s.jobs| && s.jobs[i].path == ViaQueue(false) then
      s.(jobs := s.jobs[i := s.jobs[i].(path := ViaQueue(true))], queued := s.queued + 1)
    else s
  }

  function DoTake(s: State, w: nat): State {
    if w < |s.workers| && s.workers[w].Idle? && s.queue != [] then
      Move(s, s.queue[0], Putting(Some(w))).(queue := s.queue[1..], workers := s.workers[w := Busy(s.queue[0])])
    else s
  }

  /** `store.Put` takes effect, or fails and leaves the store alone. */
  function DoPut(s: State, i: nat, ok: bool): State {
    if !At(s, i).Putting? then s
    else
      var j := s.jobs[i];
      Move(s, i, Stored(ok, j.phase.worker))
        .(puts := s.puts + [i], store := if ok then s.store[j.key := j.data] else s.store)
  }

  function DoCount(s: State, i: nat): State {
    if !At(s, i).Stored? then s
    else if At(s, i).ok then Move(s, i, Counted(At(s, i).worker)).(completed := s.completed + 1)
    else Release(Move(s, i, Finished(false)).(failed := s.failed + 1), At(s, i).worker)
  }

  function DoCountBytes(s: State, i: nat): State {
    if !At(s, i).Counted? then s
    else Release(Move(s, i, Finished(true)).(bytes := s.bytes + |s.jobs[i].data|), At(s, i).worker)
  }

  function DoLatePut(s: State, i: nat, ok: bool): State {
    if !At(s, i).Late? then s
    else
      var j := s.jobs[i];
      Move(s, i, LateFinished(ok))
        .(puts := s.puts + [i], store := if ok then s.store[j.key := j.data] else s.store)
  }

  /** The call of `Write` has returned. */
  predicate Returned(j: Job) {
    match j.path
    case Undecided => j.phase.LateFinished?
    case Direct => j.phase.Finished?
    case ViaQueue(acked) => acked
  }

  /** `Close` starts. No `Write` is under way then: racing the two is outside the contract. */
  function DoMarkClosed(s: State): State {
    if forall i :: 0 <= i < |s.jobs| ==> Returned(s.jobs[i]) then s.(closed := true) else s
  }

  function DoCloseQueue(s: State): State {
    if s.closed then s.(queueClosed := true) else s
  }

  /** A worker's `range` ends when the queue is closed and empty. */
  function DoExit(s: State, w: nat): State {
    if w < |s.workers| && s.workers[w].Idle? && s.queueClosed && s.queue == [] then
      s.(workers := s.workers[w := Exited])
    else s
  }

  function Step(capacity: nat, s: State, e: Event): State {
    match e
    case Call(key, data) => DoCall(s, key, data)
    case CheckClosed(i) => DoCheckClosed(s, i)
    case Select(i) => DoSelect(capacity, s, i)
    case Ack(i) => DoAck(s, i)
    case Take(w) => DoTake(s, w)
    case Put(i, ok) => DoPut(s, i, ok)
    case Count(i) => DoCount(s, i)
    case CountBytes(i) => DoCountBytes(s, i)
    case LatePut(i, ok) => DoLatePut(s, i, ok)
    case MarkClosed => DoMarkClosed(s)
    case CloseQueue => DoCloseQueue(s)
    case Exit(w) => DoExit(s, w)
  }

  function Run(capacity: nat, workers: nat, store: map<Bytes, Bytes>, es: seq<Event>): State {
    if es == [] then Start(workers, store)
    else Step(capacity, Run(capacity, workers, store, es[..|es| - 1]), es[|es| - 1])
  }

  /** `Close` can return: the queue is closed and the wait group is at zero. */
  predicate CanReturn(s: State) {
    s.queueClosed && forall w :: 0 <= w < |s.workers| ==> s.workers[w].Exited?
  }

  // ---------- counting ----------

  function IsCompleted(j: Job): nat { One(j.phase.Counted? || j.phase == Finished(true)) }

  function IsFailed(j: Job): nat { One(j.phase == Finished(false)) }

  function StoredBytes(j: Job): nat { if j.phase == Finished(true) then |j.data| else 0 }

  function IsQueued(j: Job): nat { One(j.path == ViaQueue(true)) }

  /** Completed, Failed, Bytes and Queued as the writes have earned them. */
  function Tally(jobs: seq<Job>): (nat, nat, nat, nat) {
    (Total(jobs, IsCompleted), Total(jobs, IsFailed), Total(jobs, StoredBytes), Total(jobs, IsQueued))
  }

  ghost predicate Counters(s: State) {
    (s.completed, s.failed, s.bytes, s.queued) == Tally(s.jobs)
  }

  // ---------- the invariant ----------

  predicate HasPut(p: Phase) {
    p.Stored? || p.Counted? || p.Finished? || p.LateFinished?
  }

  predicate HasStored(p: Phase) {
    match p
    case Stored(ok, _) => ok
    case Counted(_) => true
    case Finished(ok) => ok
    case LateFinished(ok) => ok
    case _ => false
  }

  /** Every job that was Put appears once in the list of Puts, and no other does. */
  ghost predicate PutsOk(s: State) {
    && (forall k :: 0 <= k < |s.puts| ==> s.puts[k] < |s.jobs|)
    && (forall i :: 0 <= i < |s.jobs| ==> (i in s.puts <==> HasPut(s.jobs[i].phase)))
    && (forall j, k :: 0 <= j < k < |s.puts| ==> s.puts[j] != s.puts[k])
  }

  /** The worker running a job. */
  function WorkerOf(p: Phase): Option<nat> {
    match p
    case Putting(w) => w
    case Stored(_, w) => w
    case Counted(w) => w
    case _ => None
  }

  ghost predicate JobOk(s: State, i: nat)
    requires i < |s.jobs|
  {
    var j := s.jobs[i];
    var w := WorkerOf(j.phase);
    && (w.Some? ==> w.value < |s.workers| && s.workers[w.value] == Busy(i) && j.path.ViaQueue?)
    && (j.phase.InQueue? <==> i in s.queue)
    && (j.phase.InQueue? ==> j.path.ViaQueue?)
    && (j.path.ViaQueue? && (j.phase.Putting? || j.phase.Stored? || j.phase.Counted?) ==> w.Some?)
    && (j.path.Undecided? <==> j.phase.Called? || j.phase.Admitted? || j.phase.Late? || j.phase.LateFinished?)
    && (s.closed ==> !j.phase.Admitted?)
    && (s.closed && j.path.Direct? ==> j.phase.Finished?)
  }

  ghost predicate WorkersOk(s: State) {
    forall w :: 0 <= w < |s.workers| ==>
      && (s.workers[w].Busy? ==> s.workers[w].job < |s.jobs| && WorkerOf(s.jobs[s.workers[w].job].phase) == Some(w))
      && (s.workers[w].Exited? ==> s.queueClosed && s.queue == [])
  }

  ghost predicate QueueOk(capacity: nat, s: State) {
    && |s.queue| <= capacity
    && (forall k :: 0 <= k < |s.queue| ==> s.queue[k] < |s.jobs|)
    && (forall j, k :: 0 <= j < k < |s.queue| ==> s.queue[j] != s.queue[k])
    && (s.queueClosed ==> s.closed)
  }

  ghost predicate JobsOk(s: State) {
    forall i :: 0 <= i < |s.jobs| ==> JobOk(s, i)
  }

  ghost predicate Inv(capacity: nat, s: State) {
    && Counters(s)
    && PutsOk(s)
    && QueueOk(capacity, s)
    && WorkersOk(s)
    && JobsOk(s)
  }
}
