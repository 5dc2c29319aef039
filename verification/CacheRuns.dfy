/** Every run of the background writer: the invariant, `Close`, and the store. */
module CacheRuns {
  import opened Basics
  import opened Counting
  import opened AsyncCache

  // ---------- every step keeps it ----------

  /** One job changes, and each counter by the difference it makes. */
  lemma {:induction false} CountersMove(s: State, t: State, i: nat, j: Job)
    requires Counters(s) && i < |s.jobs| && t.jobs == s.jobs[i := j]
    requires t.completed + IsCompleted(s.jobs[i]) == s.completed + IsCompleted(j)
    requires t.failed + IsFailed(s.jobs[i]) == s.failed + IsFailed(j)
    requires t.bytes + StoredBytes(s.jobs[i]) == s.bytes + StoredBytes(j)
    requires t.queued + IsQueued(s.jobs[i]) == s.queued + IsQueued(j)
    ensures Counters(t)
  {
    TotalUpdate(s.jobs, i, j, IsCompleted);
    TotalUpdate(s.jobs, i, j, IsFailed);
    TotalUpdate(s.jobs, i, j, StoredBytes);
    TotalUpdate(s.jobs, i, j, IsQueued);
  }

  /** One job changes, and is added to the Puts when that is what it did. */
  lemma {:induction false} PutsMove(s: State, t: State, i: nat, j: Job)
    requires PutsOk(s) && i < |s.jobs| && t.jobs == s.jobs[i := j]
    requires HasPut(s.jobs[i].phase) ==> HasPut(j.phase)
    requires t.puts == if HasPut(j.phase) && !HasPut(s.jobs[i].phase) then s.puts + [i] else s.puts
    ensures PutsOk(t)
  {
  }

  lemma {:induction false} KeepsCall(capacity: nat, s: State, key: Bytes, data: Bytes)
    requires Inv(capacity, s)
    ensures Inv(capacity, DoCall(s, key, data))
  {
    hide Total;
    var t, j := DoCall(s, key, data), Job(key, data, Called, Undecided);
    TotalSnoc(s.jobs, j, IsCompleted);
    TotalSnoc(s.jobs, j, IsFailed);
    TotalSnoc(s.jobs, j, StoredBytes);
    TotalSnoc(s.jobs, j, IsQueued);
    forall i | 0 <= i < |t.jobs| ensures JobOk(t, i) {
      if i < |s.jobs| { assert JobOk(s, i); }
    }
  }

  /** The steps of a caller before any Put. */
  lemma {:induction false} KeepsCaller(capacity: nat, s: State, e: Event, i: nat)
    requires Inv(capacity, s) && (e == CheckClosed(i) || e == Select(i) || e == Ack(i))
    ensures Inv(capacity, Step(capacity, s, e))
  {
    hide Counters, PutsOk;
    var t := Step(capacity, s, e);
    if t != s {
      assert JobOk(s, i);
      CountersMove(s, t, i, t.jobs[i]);
      PutsMove(s, t, i, t.jobs[i]);
      forall k | 0 <= k < |t.jobs| ensures JobOk(t, k) { assert JobOk(s, k); }
    }
  }

  lemma {:induction false} KeepsTake(capacity: nat, s: State, w: nat)
    requires Inv(capacity, s)
    ensures Inv(capacity, DoTake(s, w))
  {
    hide Counters, PutsOk;
    if w < |s.workers| && s.workers[w].Idle? && s.queue != [] {
      var t, i := DoTake(s, w), s.queue[0];
      assert JobOk(s, i);
      CountersMove(s, t, i, t.jobs[i]);
      PutsMove(s, t, i, t.jobs[i]);
      forall k | 0 <= k < |t.jobs| ensures JobOk(t, k) { assert JobOk(s, k); }
    }
  }

  /** A Put, in time or late. */
  lemma {:induction false} KeepsPut(capacity: nat, s: State, e: Event, i: nat, ok: bool)
    requires Inv(capacity, s) && (e == Put(i, ok) || e == LatePut(i, ok))
    ensures Inv(capacity, Step(capacity, s, e))
  {
    hide Counters, PutsOk;
    var t := Step(capacity, s, e);
    if t != s {
      assert JobOk(s, i);
      CountersMove(s, t, i, t.jobs[i]);
      PutsMove(s, t, i, t.jobs[i]);
      forall k | 0 <= k < |t.jobs| ensures JobOk(t, k) { assert JobOk(s, k); }
    }
  }

  lemma {:induction false} KeepsCount(capacity: nat, s: State, i: nat)
    requires Inv(capacity, s)
    ensures Inv(capacity, DoCount(s, i))
  {
    hide Counters, PutsOk, Total;
    if At(s, i).Stored? {
      var t := DoCount(s, i);
      assert JobOk(s, i);
      CountersMove(s, t, i, t.jobs[i]);
      PutsMove(s, t, i, t.jobs[i]);
      forall k | 0 <= k < |t.jobs| ensures JobOk(t, k) { assert JobOk(s, k); }
    }
  }

  lemma {:induction false} KeepsCountBytes(capacity: nat, s: State, i: nat)
    requires Inv(capacity, s)
    ensures Inv(capacity, DoCountBytes(s, i))
  {
    hide Counters, PutsOk;
    if At(s, i).Counted? {
      var t := DoCountBytes(s, i);
      assert JobOk(s, i);
      CountersMove(s, t, i, t.jobs[i]);
      PutsMove(s, t, i, t.jobs[i]);
      forall k | 0 <= k < |t.jobs| ensures JobOk(t, k) { assert JobOk(s, k); }
    }
  }

  lemma {:induction false} KeepsClose(capacity: nat, s: State, e: Event)
    requires Inv(capacity, s) && (e.MarkClosed? || e.CloseQueue? || e.Exit?)
    ensures Inv(capacity, Step(capacity, s, e))
  {
    hide Total;
    var t := Step(capacity, s, e);
    forall k | 0 <= k < |t.jobs| ensures JobOk(t, k) { assert JobOk(s, k); }
  }

  lemma {:induction false} Starts(capacity: nat, workers: nat, store: map<Bytes, Bytes>)
    ensures Inv(capacity, Start(workers, store))
  {
  }

  lemma {:induction false} RunKeeps(capacity: nat, workers: nat, store: map<Bytes, Bytes>, es: seq<Event>)
    ensures Inv(capacity, Run(capacity, workers, store, es))
  {
    if es == [] {
      Starts(capacity, workers, store);
    } else {
      hide Inv;
      var s, e := Run(capacity, workers, store, es[..|es| - 1]), es[|es| - 1];
      RunKeeps(capacity, workers, store, es[..|es| - 1]);
      match e
      case Call(key, data) => KeepsCall(capacity, s, key, data);
      case CheckClosed(i) => KeepsCaller(capacity, s, e, i);
      case Select(i) => KeepsCaller(capacity, s, e, i);
      case Ack(i) => KeepsCaller(capacity, s, e, i);
      case Take(w) => KeepsTake(capacity, s, w);
      case Put(i, ok) => KeepsPut(capacity, s, e, i, ok);
      case Count(i) => KeepsCount(capacity, s, i);
      case CountBytes(i) => KeepsCountBytes(capacity, s, i);
      case LatePut(i, ok) => KeepsPut(capacity, s, e, i, ok);
      case MarkClosed => KeepsClose(capacity, s, e);
      case CloseQueue => KeepsClose(capacity, s, e);
      case Exit(_) => KeepsClose(capacity, s, e);
    }
  }

  lemma {:induction false} StepWorkers(capacity: nat, s: State, e: Event)
    ensures |Step(capacity, s, e).workers| == |s.workers|
  {
    match e
    case Call(_, _) =>
    case _ =>
  }

  lemma {:induction false} WorkersStay(capacity: nat, workers: nat, store: map<Bytes, Bytes>, es: seq<Event>)
    ensures |Run(capacity, workers, store, es).workers| == workers
  {
    hide Step;
    if es != [] {
      WorkersStay(capacity, workers, store, es[..|es| - 1]);
      StepWorkers(capacity, Run(capacity, workers, store, es[..|es| - 1]), es[|es| - 1]);
    }
  }

  // ---------- after Close ----------

  /** The write found the writer open; when `Close` has begun, these are the writes made before it. */
  predicate Early(j: Job) {
    !j.path.Undecided?
  }

  function IsEarly(j: Job): nat { One(Early(j)) }

  lemma {:induction false} TotalsAdd(jobs: seq<Job>)
    requires forall i :: 0 <= i < |jobs| ==> (Early(jobs[i]) <==> jobs[i].phase.Finished?) && !jobs[i].phase.Counted?
    ensures Total(jobs, IsCompleted) + Total(jobs, IsFailed) == Total(jobs, IsEarly)
  {
    if jobs != [] {
      TotalsAdd(jobs[..|jobs| - 1]);
      assert jobs[|jobs| - 1].phase.Finished? <==> Early(jobs[|jobs| - 1]);
    }
  }

  /** When `Close` returns, nothing made before it is still waiting or under way. */
  lemma {:induction false} EarlyFinished(capacity: nat, s: State, i: nat)
    requires Inv(capacity, s) && CanReturn(s) && (|s.workers| > 0 || capacity == 0) && i < |s.jobs|
    ensures Early(s.jobs[i]) <==> s.jobs[i].phase.Finished?
    ensures !s.jobs[i].phase.Counted?
  {
    hide Counters, PutsOk;
    assert JobOk(s, i);
    assert s.queue == [] by {
      if |s.workers| > 0 { assert s.workers[0].Exited?; }
    }
  }

  /**
   Under every schedule, when `Close` can return each write made before it has been Put exactly once,
   Completed and Failed add up to the number of those writes, and Bytes is the total length of the
   successful ones.
   */
  lemma {:induction false} CloseDrains(capacity: nat, workers: nat, store: map<Bytes, Bytes>, es: seq<Event>)
    requires workers > 0 || capacity == 0
    requires CanReturn(Run(capacity, workers, store, es))
    ensures var s := Run(capacity, workers, store, es);
            && PutsOk(s)
            && (forall i :: 0 <= i < |s.jobs| && Early(s.jobs[i]) ==> i in s.puts && s.jobs[i].phase.Finished?)
            && s.completed + s.failed == Total(s.jobs, IsEarly)
            && s.bytes == Total(s.jobs, StoredBytes)
            && s.queued == Total(s.jobs, IsQueued)
  {
    var s := Run(capacity, workers, store, es);
    RunKeeps(capacity, workers, store, es);
    WorkersStay(capacity, workers, store, es);
    forall i | 0 <= i < |s.jobs|
      ensures Early(s.jobs[i]) <==> s.jobs[i].phase.Finished?
      ensures !s.jobs[i].phase.Counted?
    {
      EarlyFinished(capacity, s, i);
    }
    TotalsAdd(s.jobs);
  }

  lemma {:induction false} RunSnoc(capacity: nat, workers: nat, store: map<Bytes, Bytes>, es: seq<Event>, e: Event)
    ensures Run(capacity, workers, store, es + [e]) == Step(capacity, Run(capacity, workers, store, es), e)
  {
    assert (es + [e])[..|es|] == es;
  }

  /** Without workers a queue drops writes: `Close` returns and the job is still in the queue. */
  lemma {:induction false} NoWorkersDropWrites(capacity: nat, key: Bytes, data: Bytes) returns (es: seq<Event>)
    requires capacity > 0
    ensures var s := Run(capacity, 0, map[], es);
            CanReturn(s) && |s.jobs| == 1 && Early(s.jobs[0]) && 0 !in s.puts
  {
    es := [];
    var steps := [Call(key, data), CheckClosed(0), Select(0), Ack(0), MarkClosed, CloseQueue];
    for n := 0 to |steps|
      invariant es == steps[..n]
      invariant var s := Run(capacity, 0, map[], es);
                && s.workers == [] && s.puts == [] && |s.jobs| == One(n > 0)
                && (n > 0 ==> s.jobs[0].phase == (if n == 1 then Called else if n == 2 then Admitted else InQueue))
                && (n > 0 ==> s.jobs[0].path == (if n <= 2 then Undecided else ViaQueue(n > 3)))
                && (n <= 2 ==> s.queue == []) && s.closed == (n > 4) && s.queueClosed == (n > 5)
    {
      RunSnoc(capacity, 0, map[], es, steps[n]);
      es := es + [steps[n]];
    }
  }

  ghost predicate EarlyPut(s: State) {
    forall i :: 0 <= i < |s.jobs| && Early(s.jobs[i]) ==> i in s.puts
  }

  /** `Close` never returns before a write made before it has been Put. */
  ghost predicate NeverDrops(capacity: nat, workers: nat) {
    forall store, es :: CanReturn(Run(capacity, workers, store, es)) ==> EarlyPut(Run(capacity, workers, store, es))
  }

  lemma {:induction false} NeverDropsExactly(capacity: nat, workers: nat)
    ensures NeverDrops(capacity, workers) <==> workers > 0 || capacity == 0
  {
    hide Run, CanReturn, PutsOk;
    if workers > 0 || capacity == 0 {
      forall store, es | CanReturn(Run(capacity, workers, store, es))
        ensures EarlyPut(Run(capacity, workers, store, es))
      {
        CloseDrains(capacity, workers, store, es);
      }
    } else {
      var es := NoWorkersDropWrites(capacity, [], []);
      assert CanReturn(Run(capacity, 0, map[], es)) && !EarlyPut(Run(capacity, 0, map[], es));
    }
  }

  // ---------- nothing is stuck short of the end of Close ----------

  function PhaseLeft(p: Phase): nat {
    match p
    case Called => 8
    case Admitted => 7
    case InQueue => 5
    case Putting(_) => 4
    case Stored(_, _) => 3
    case Counted(_) => 2
    case Late => 1
    case Finished(_) => 0
    case LateFinished(_) => 0
  }

  function JobLeft(j: Job): nat {
    PhaseLeft(j.phase) + One(j.path == ViaQueue(false))
  }

  function WorkerLeft(w: Worker): nat { One(!w.Exited?) }

  /** How far a state is from the return of `Close`. */
  function Left(s: State): nat {
    Total(s.jobs, JobLeft) + Total(s.workers, WorkerLeft) + One(!s.closed) + One(!s.queueClosed)
  }

  /** A job with a step of its own to make: anything but waiting in the queue, or being over. */
  predicate CanMove(j: Job) {
    j.path == ViaQueue(false) || !(j.phase.InQueue? || j.phase.Finished? || j.phase.LateFinished?)
  }

  function MoveOf(j: Job, i: nat): Event {
    if j.path == ViaQueue(false) then Ack(i)
    else match j.phase
      case Called => CheckClosed(i)
      case Admitted => Select(i)
      case Putting(_) => Put(i, true)
      case Stored(_, _) => Count(i)
      case Counted(_) => CountBytes(i)
      case _ => LatePut(i, true)
  }

  /** One job has come nearer to its end, and no worker has come or gone. */
  ghost predicate Went(s: State, t: State, i: nat)
    requires i < |s.jobs|
  {
    && |t.jobs| == |s.jobs| && t.jobs == s.jobs[i := t.jobs[i]] && JobLeft(t.jobs[i]) < JobLeft(s.jobs[i])
    && (t.closed, t.queueClosed) == (s.closed, s.queueClosed)
    && |t.workers| == |s.workers|
    && forall w :: 0 <= w < |s.workers| ==> (t.workers[w].Exited? <==> s.workers[w].Exited?)
  }

  lemma {:induction false} CallerWent(capacity: nat, s: State, i: nat)
    requires i < |s.jobs| && (s.jobs[i].path == ViaQueue(false) || s.jobs[i].phase.Called? || s.jobs[i].phase.Admitted?)
    ensures Went(s, Step(capacity, s, MoveOf(s.jobs[i], i)), i)
  {
  }

  lemma {:induction false} PutWent(capacity: nat, s: State, i: nat)
    requires i < |s.jobs| && s.jobs[i].path != ViaQueue(false) && (s.jobs[i].phase.Putting? || s.jobs[i].phase.Late?)
    ensures Went(s, Step(capacity, s, MoveOf(s.jobs[i], i)), i)
  {
  }

  lemma {:induction false} CountWent(capacity: nat, s: State, i: nat)
    requires i < |s.jobs| && s.jobs[i].path != ViaQueue(false) && (s.jobs[i].phase.Stored? || s.jobs[i].phase.Counted?)
    requires JobOk(s, i)
    ensures Went(s, Step(capacity, s, MoveOf(s.jobs[i], i)), i)
  {
  }

  lemma {:induction false} JobMoves(capacity: nat, s: State, i: nat)
    requires Inv(capacity, s) && i < |s.jobs| && CanMove(s.jobs[i])
    ensures Went(s, Step(capacity, s, MoveOf(s.jobs[i], i)), i)
  {
    hide Counters, PutsOk, QueueOk, WorkersOk, Step, Went, MoveOf;
    var j := s.jobs[i];
    if j.path == ViaQueue(false) || j.phase.Called? || j.phase.Admitted? {
      CallerWent(capacity, s, i);
    } else if j.phase.Putting? || j.phase.Late? {
      PutWent(capacity, s, i);
    } else {
      assert JobOk(s, i);
      CountWent(capacity, s, i);
    }
  }

  lemma {:induction false} SameTotal<T>(xs: seq<T>, ys: seq<T>, weight: T -> nat)
    requires |xs| == |ys| && forall i :: 0 <= i < |xs| ==> weight(xs[i]) == weight(ys[i])
    ensures Total(xs, weight) == Total(ys, weight)
  {
    if xs != [] { SameTotal(xs[..|xs| - 1], ys[..|ys| - 1], weight); }
  }

  lemma {:induction false} JobNearer(capacity: nat, s: State, i: nat)
    requires Inv(capacity, s) && i < |s.jobs| && CanMove(s.jobs[i])
    ensures Left(Step(capacity, s, MoveOf(s.jobs[i], i))) < Left(s)
  {
    hide Total, Inv, Step, JobLeft, MoveOf;
    var t := Step(capacity, s, MoveOf(s.jobs[i], i));
    JobMoves(capacity, s, i);
    TotalUpdate(s.jobs, i, t.jobs[i], JobLeft);
    SameTotal(s.workers, t.workers, WorkerLeft);
  }

  lemma {:induction false} TakeNearer(capacity: nat, s: State, w: nat)
    requires Inv(capacity, s) && w < |s.workers| && s.workers[w].Idle? && s.queue != []
    ensures Left(Step(capacity, s, Take(w))) < Left(s)
  {
    hide Total, Counters, PutsOk, WorkersOk;
    var i := s.queue[0];
    assert JobOk(s, i);
    TotalUpdate(s.jobs, i, s.jobs[i].(phase := Putting(Some(w))), JobLeft);
    TotalUpdate(s.workers, w, Busy(i), WorkerLeft);
  }

  lemma {:induction false} ExitNearer(capacity: nat, s: State, w: nat)
    requires w < |s.workers| && s.workers[w].Idle? && s.queue == [] && s.queueClosed
    ensures Left(Step(capacity, s, Exit(w))) < Left(s)
  {
    hide Total;
    TotalUpdate(s.workers, w, Exited, WorkerLeft);
  }

  lemma {:induction false} CloseNearer(capacity: nat, s: State) returns (e: Event)
    requires Inv(capacity, s) && (forall i :: 0 <= i < |s.jobs| ==> !CanMove(s.jobs[i])) && !s.queueClosed
    ensures Left(Step(capacity, s, e)) < Left(s)
  {
    hide Total, Counters, PutsOk, WorkersOk, QueueOk;
    e := if s.closed then CloseQueue else MarkClosed;
    forall i | 0 <= i < |s.jobs| ensures Returned(s.jobs[i]) {
      assert JobOk(s, i);
    }
  }

  /** With no job to move, no worker is busy. */
  lemma {:induction false} NobodyBusy(capacity: nat, s: State, w: nat)
    requires Inv(capacity, s) && (forall i :: 0 <= i < |s.jobs| ==> !CanMove(s.jobs[i])) && w < |s.workers|
    ensures !s.workers[w].Busy? && (s.workers[w].Exited? ==> s.queueClosed && s.queue == [])
  {
    hide Counters, PutsOk;
    assert WorkersOk(s);
  }

  lemma {:induction false} Nearer(capacity: nat, s: State) returns (e: Event)
    requires Inv(capacity, s) && !CanReturn(s)
    ensures Left(Step(capacity, s, e)) < Left(s)
  {
    hide Inv, Left, Step, CanMove, MoveOf;
    if i :| 0 <= i < |s.jobs| && CanMove(s.jobs[i]) {
      JobNearer(capacity, s, i);
      e := MoveOf(s.jobs[i], i);
    } else if !s.queueClosed {
      e := CloseNearer(capacity, s);
    } else {
      var w :| 0 <= w < |s.workers| && !s.workers[w].Exited?;
      NobodyBusy(capacity, s, w);
      if s.queue != [] {
        TakeNearer(capacity, s, w);
        e := Take(w);
      } else {
        ExitNearer(capacity, s, w);
        e := Exit(w);
      }
    }
  }

  /** From every state of every run `Close` can come to its return, whatever the queue size and the workers. */
  lemma {:induction false} CloseReachable(capacity: nat, workers: nat, store: map<Bytes, Bytes>, es: seq<Event>) returns (fs: seq<Event>)
    ensures CanReturn(Run(capacity, workers, store, es + fs))
    decreases Left(Run(capacity, workers, store, es))
  {
    hide Run, Left, Step, CanReturn;
    var s := Run(capacity, workers, store, es);
    if CanReturn(s) {
      fs := [];
      assert es + fs == es;
    } else {
      RunKeeps(capacity, workers, store, es);
      var e := Nearer(capacity, s);
      RunSnoc(capacity, workers, store, es, e);
      var rest := CloseReachable(capacity, workers, store, es + [e]);
      fs := [e] + rest;
      assert es + fs == es + [e] + rest;
    }
  }

  // ---------- the store ----------

  predicate Wrote(j: Job, key: Bytes) {
    HasStored(j.phase) && j.key == key
  }

  ghost predicate SomeWrote(jobs: seq<Job>, key: Bytes) {
    exists i :: 0 <= i < |jobs| && Wrote(jobs[i], key)
  }

  ghost predicate WroteThis(jobs: seq<Job>, key: Bytes, data: Bytes) {
    exists i :: 0 <= i < |jobs| && Wrote(jobs[i], key) && jobs[i].data == data
  }

  /** A key holds the data of a write that stored it, or what it held at first if none did. */
  ghost predicate KeyOk(first: map<Bytes, Bytes>, s: State, key: Bytes) {
    if SomeWrote(s.jobs, key) then
      exists data :: Lookup(s.store, key) == Some(data) && WroteThis(s.jobs, key, data)
    else Lookup(s.store, key) == Lookup(first, key)
  }

  /** One job moves on, and the store changes if that is when it was stored. */
  ghost predicate OneMoves(s: State, t: State, i: nat) {
    if i >= |s.jobs| then t.jobs == s.jobs && t.store == s.store
    else
    && |t.jobs| == |s.jobs| && t.jobs == s.jobs[i := t.jobs[i]]
    && t.jobs[i].key == s.jobs[i].key && t.jobs[i].data == s.jobs[i].data
    && (HasStored(s.jobs[i].phase) ==> HasStored(t.jobs[i].phase))
    && t.store == if HasStored(t.jobs[i].phase) && !HasStored(s.jobs[i].phase)
                  then s.store[s.jobs[i].key := s.jobs[i].data] else s.store
  }

  lemma {:induction false} OneMoved(first: map<Bytes, Bytes>, s: State, t: State, i: nat, key: Bytes)
    requires OneMoves(s, t, i) && KeyOk(first, s, key)
    ensures KeyOk(first, t, key)
  {
    if i < |s.jobs| {
      if Wrote(t.jobs[i], key) && HasStored(s.jobs[i].phase) {
        assert Wrote(s.jobs[i], key);
      }
      if SomeWrote(s.jobs, key) {
        var k :| 0 <= k < |s.jobs| && Wrote(s.jobs[k], key) && s.jobs[k].data == s.store[key];
        assert Wrote(t.jobs[k], key);
      }
      if SomeWrote(t.jobs, key) && !Wrote(t.jobs[i], key) {
        var k :| 0 <= k < |t.jobs| && Wrote(t.jobs[k], key);
        assert Wrote(s.jobs[k], key);
      }
      if SomeWrote(t.jobs, key) {
        assert WroteThis(t.jobs, key, t.store[key]);
      }
    }
  }

  lemma {:induction false} CallStore(first: map<Bytes, Bytes>, s: State, k: Bytes, data: Bytes, key: Bytes)
    requires KeyOk(first, s, key)
    ensures KeyOk(first, DoCall(s, k, data), key)
  {
    var t := DoCall(s, k, data);
    if SomeWrote(t.jobs, key) {
      var i :| 0 <= i < |t.jobs| && Wrote(t.jobs[i], key);
      assert Wrote(s.jobs[i], key);
    }
    if SomeWrote(s.jobs, key) {
      var i :| 0 <= i < |s.jobs| && Wrote(s.jobs[i], key) && s.jobs[i].data == s.store[key];
      assert Wrote(t.jobs[i], key);
    }
  }

  lemma {:induction false} TakeStore(capacity: nat, first: map<Bytes, Bytes>, s: State, w: nat, key: Bytes)
    requires Inv(capacity, s) && KeyOk(first, s, key)
    ensures KeyOk(first, DoTake(s, w), key)
  {
    hide Counters, PutsOk, WorkersOk, KeyOk;
    var t := DoTake(s, w);
    if t != s {
      assert JobOk(s, s.queue[0]);
      OneMoved(first, s, t, s.queue[0], key);
    }
  }

  lemma {:induction false} CallerMoves(capacity: nat, s: State, i: nat)
    ensures OneMoves(s, DoCheckClosed(s, i), i) && OneMoves(s, DoSelect(capacity, s, i), i) && OneMoves(s, DoAck(s, i), i)
  {
  }

  lemma {:induction false} PutMoves(s: State, i: nat, ok: bool)
    ensures OneMoves(s, DoPut(s, i, ok), i) && OneMoves(s, DoLatePut(s, i, ok), i)
  {
  }

  lemma {:induction false} CountMoves(s: State, i: nat)
    ensures OneMoves(s, DoCount(s, i), i) && OneMoves(s, DoCountBytes(s, i), i)
  {
    if At(s, i).Stored? {
      var next := if At(s, i).ok then Counted(At(s, i).worker) else Finished(false);
      assert DoCount(s, i).jobs == Move(s, i, next).jobs;
    } else if At(s, i).Counted? {
      assert DoCountBytes(s, i).jobs == Move(s, i, Finished(true)).jobs;
    }
  }

  lemma {:induction false} StepStore(capacity: nat, first: map<Bytes, Bytes>, s: State, e: Event, key: Bytes)
    requires Inv(capacity, s) && KeyOk(first, s, key)
    ensures KeyOk(first, Step(capacity, s, e), key)
  {
    hide Inv, KeyOk, OneMoves, DoCheckClosed, DoSelect, DoAck, DoPut, DoLatePut, DoCount, DoCountBytes;
    var t := Step(capacity, s, e);
    if e.Call? {
      CallStore(first, s, e.key, e.data, key);
    } else if e.Take? {
      TakeStore(capacity, first, s, e.w, key);
    } else if e.MarkClosed? || e.CloseQueue? || e.Exit? {
      OneMoved(first, s, t, |s.jobs|, key);
    } else {
      CallerMoves(capacity, s, e.i);
      PutMoves(s, e.i, if e.Put? || e.LatePut? then e.ok else true);
      CountMoves(s, e.i);
      OneMoved(first, s, t, e.i, key);
    }
  }

  /** In every run, with any mix of queue, workers and synchronous writes. */
  lemma {:induction false} StoreOfRun(capacity: nat, workers: nat, first: map<Bytes, Bytes>, es: seq<Event>, key: Bytes)
    ensures KeyOk(first, Run(capacity, workers, first, es), key)
  {
    hide Step, Inv;
    if es != [] {
      var before := Run(capacity, workers, first, es[..|es| - 1]);
      StoreOfRun(capacity, workers, first, es[..|es| - 1], key);
      RunKeeps(capacity, workers, first, es[..|es| - 1]);
      StepStore(capacity, first, before, es[|es| - 1], key);
    }
  }

  /** The map built by doing the writes one after another. */
  function Sequential(first: map<Bytes, Bytes>, jobs: seq<Job>): map<Bytes, Bytes> {
    if jobs == [] then first
    else Sequential(first, jobs[..|jobs| - 1])[jobs[|jobs| - 1].key := jobs[|jobs| - 1].data]
  }

  ghost predicate Consistent(jobs: seq<Job>) {
    forall i, j :: 0 <= i < |jobs| && 0 <= j < |jobs| && jobs[i].key == jobs[j].key ==> jobs[i].data == jobs[j].data
  }

  lemma {:induction false} SequentialAt(first: map<Bytes, Bytes>, jobs: seq<Job>, key: Bytes)
    requires Consistent(jobs)
    ensures forall i :: 0 <= i < |jobs| && jobs[i].key == key ==>
              key in Sequential(first, jobs) && Sequential(first, jobs)[key] == jobs[i].data
    ensures (forall i :: 0 <= i < |jobs| ==> jobs[i].key != key) ==>
              (key in Sequential(first, jobs) <==> key in first)
              && (key in first ==> Sequential(first, jobs)[key] == first[key])
  {
    if jobs != [] {
      SequentialAt(first, jobs[..|jobs| - 1], key);
    }
  }

  /**
   When equal keys carry equal data and every write has been stored, the store is the map built by
   doing the writes one after another, whatever the queue size, the workers and the schedule.
   */
  lemma {:induction false} DrainedStore(capacity: nat, workers: nat, first: map<Bytes, Bytes>, es: seq<Event>)
    requires Consistent(Run(capacity, workers, first, es).jobs)
    requires forall i :: 0 <= i < |Run(capacity, workers, first, es).jobs| ==>
               HasStored(Run(capacity, workers, first, es).jobs[i].phase)
    ensures Run(capacity, workers, first, es).store == Sequential(first, Run(capacity, workers, first, es).jobs)
  {
    var s := Run(capacity, workers, first, es);
    var m := Sequential(first, s.jobs);
    forall key ensures (key in s.store <==> key in m) && (key in m ==> s.store[key] == m[key]) {
      StoreOfRun(capacity, workers, first, es, key);
      SequentialAt(first, s.jobs, key);
      if SomeWrote(s.jobs, key) {
        var i :| 0 <= i < |s.jobs| && Wrote(s.jobs[i], key) && s.jobs[i].data == s.store[key];
        assert s.jobs[i].key == key;
      } else {
        forall i | 0 <= i < |s.jobs| ensures s.jobs[i].key != key {
          assert !Wrote(s.jobs[i], key);
        }
      }
    }
  }

  /** Once `Close` can return, that is so when no write came after it and no Put failed. */
  lemma {:induction false} ClosedStore(capacity: nat, workers: nat, first: map<Bytes, Bytes>, es: seq<Event>)
    requires workers > 0 || capacity == 0
    requires CanReturn(Run(capacity, workers, first, es)) && Consistent(Run(capacity, workers, first, es).jobs)
    requires forall i :: 0 <= i < |Run(capacity, workers, first, es).jobs| ==> Early(Run(capacity, workers, first, es).jobs[i])
    requires Run(capacity, workers, first, es).failed == 0
    ensures Run(capacity, workers, first, es).store == Sequential(first, Run(capacity, workers, first, es).jobs)
  {
    var s := Run(capacity, workers, first, es);
    RunKeeps(capacity, workers, first, es);
    CloseDrains(capacity, workers, first, es);
    forall i | 0 <= i < |s.jobs| ensures HasStored(s.jobs[i].phase) {
      TotalAtLeast(s.jobs, i, IsFailed);
    }
    DrainedStore(capacity, workers, first, es);
  }
}
