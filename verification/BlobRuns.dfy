/** Every run of overlapping Puts: only a rename shows, and the files are the writer's map. */
module BlobRuns {
  import opened Basics
  import opened Sharded
  import opened BlobCache
  import R = CacheRuns

  // ---------- the writer's part ----------

  lemma {:induction false} ShownStep(cfg: Config, c: Cache, e: Event)
    ensures var shown := Shown(cfg, c, e);
            && |shown| <= 1
            && Step(cfg, c, e).writer == if shown == [] then c.writer else A.Step(cfg.capacity, c.writer, shown[0])
  {
    hide A.Step, TempPath, Path;
  }

  /** The writer goes through a run of its own, so all that holds of its runs holds here. */
  lemma {:induction false} WriterRuns(cfg: Config, files: map<string, Bytes>, es: seq<Event>)
    ensures Run(cfg, files, es).writer == A.Run(cfg.capacity, cfg.workers, StoreOf(cfg.root, files), Trace(cfg, files, es))
  {
    hide Step, Shown, A.Step;
    if es != [] {
      var before := es[..|es| - 1];
      var c, e := Run(cfg, files, before), es[|es| - 1];
      WriterRuns(cfg, files, before);
      ShownStep(cfg, c, e);
      if Shown(cfg, c, e) == [] {
        assert Trace(cfg, files, es) == Trace(cfg, files, before);
      } else {
        assert Trace(cfg, files, es) == Trace(cfg, files, before) + [Shown(cfg, c, e)[0]];
        R.RunSnoc(cfg.capacity, cfg.workers, StoreOf(cfg.root, files), Trace(cfg, files, before), Shown(cfg, c, e)[0]);
      }
    }
  }

  /** Nothing else takes a job out of its Put. */
  lemma {:induction false} StaysInPut(capacity: nat, w: A.State, e: A.Event, i: nat)
    requires A.Inv(capacity, w) && InPut(w, i) && !e.Put? && !e.LatePut?
    ensures var t := A.Step(capacity, w, e);
            InPut(t, i) && t.jobs[i].key == w.jobs[i].key && t.jobs[i].data == w.jobs[i].data
  {
    hide A.Counters, A.PutsOk, A.WorkersOk;
    if e.Take? && w.queue != [] {
      assert A.JobOk(w, w.queue[0]);
    }
  }

  lemma {:induction false} CallersStoreNothing(capacity: nat, w: A.State, e: A.Event)
    requires e.Call? || e.CheckClosed? || e.Select? || e.Ack? || e.Take?
    ensures A.Step(capacity, w, e).store == w.store
  {
  }

  lemma {:induction false} StoreStays(capacity: nat, w: A.State, e: A.Event)
    requires !e.Put? && !e.LatePut?
    ensures A.Step(capacity, w, e).store == w.store
  {
    if e.Count? || e.CountBytes? {
    } else if e.MarkClosed? || e.CloseQueue? || e.Exit? {
    } else {
      hide A.Step;
      CallersStoreNothing(capacity, w, e);
    }
  }

  /** A Put that returns moves one job, and changes the map if it succeeded. */
  lemma {:induction false} Returns(capacity: nat, w: A.State, i: nat, ok: bool)
    requires InPut(w, i)
    ensures var t, j := A.Step(capacity, w, PutEvent(w, i, ok)), w.jobs[i];
            && t.store == (if ok then w.store[j.key := j.data] else w.store)
            && |t.jobs| == |w.jobs| && !InPut(t, i)
            && forall k :: 0 <= k < |w.jobs| && k != i ==> t.jobs[k] == w.jobs[k]
  {
  }

  // ---------- every step keeps it ----------

  /** Only one temp file is touched; blobs aside, the rest of the tree stays. */
  ghost predicate OneTemp(cfg: Config, files: map<string, Bytes>, files': map<string, Bytes>, temp: string) {
    forall key: Bytes, random: string :: |key| > 0 && TempPath(cfg.root, key, random) != temp ==>
      Lookup(files', TempPath(cfg.root, key, random)) == Lookup(files, TempPath(cfg.root, key, random))
  }

  /** One Put moves on, with its own temp file. */
  lemma {:induction false} OneActs(cfg: Config, c: Cache, d: Cache, i: nat, temp: string)
    requires StagesOk(cfg, c) && Apart(cfg, c)
    requires i in d.stages && d.stages == c.stages[i := d.stages[i]]
    requires |d.writer.jobs| == |c.writer.jobs|
    requires forall k :: 0 <= k < |c.writer.jobs| && k != i ==> d.writer.jobs[k] == c.writer.jobs[k]
    requires TempOf(cfg, c, i) == Some(temp) || (TempOf(cfg, c, i).None? && temp !in c.files)
    requires OneTemp(cfg, c.files, d.files, temp)
    requires StageOk(cfg, d, i) && (TempOf(cfg, d, i).Some? ==> TempOf(cfg, d, i) == Some(temp))
    ensures StagesOk(cfg, d) && Apart(cfg, d)
  {
    hide TempPath, Path;
    forall k | k in d.stages && k != i
      ensures TempOf(cfg, d, k) == TempOf(cfg, c, k) && TempOf(cfg, c, k) != Some(temp) && StageOk(cfg, d, k)
    {
      assert StageOk(cfg, c, k);
      if i in c.stages { assert TempOf(cfg, c, i).Some? ==> TempOf(cfg, c, i) != TempOf(cfg, c, k); }
    }
  }

  /** No blob is a temp file. */
  lemma {:induction false} BlobsApart(cfg: Config, temp: string, key: Bytes, random: string)
    requires |key| > 0 && temp == TempPath(cfg.root, key, random)
    ensures forall other: Bytes :: |other| > 0 ==> Path(cfg.root, other) != temp
  {
    hide TempPath, Path;
    forall other: Bytes | |other| > 0 ensures Path(cfg.root, other) != temp {
      TempIsNoBlob(cfg.root, key, random, other);
    }
  }

  /** One Put moves on and the files stay. */
  lemma {:induction false} OneWaits(cfg: Config, c: Cache, d: Cache, i: nat)
    requires StagesOk(cfg, c) && Apart(cfg, c)
    requires i in d.stages && d.stages == c.stages[i := d.stages[i]] && d.files == c.files
    requires |d.writer.jobs| == |c.writer.jobs|
    requires forall k :: 0 <= k < |c.writer.jobs| && k != i ==> d.writer.jobs[k] == c.writer.jobs[k]
    requires StageOk(cfg, d, i) && (TempOf(cfg, d, i).Some? ==> TempOf(cfg, d, i) == TempOf(cfg, c, i))
    ensures StagesOk(cfg, d) && Apart(cfg, d)
  {
    hide TempPath, Path;
    forall k | k in d.stages && k != i ensures TempOf(cfg, d, k) == TempOf(cfg, c, k) && StageOk(cfg, d, k) {
      assert StageOk(cfg, c, k);
    }
    if i in c.stages { assert StageOk(cfg, c, i); }
  }

  /** The steps that touch no file. */
  lemma {:induction false} KeepsQuiet(cfg: Config, c: Cache, e: Event)
    requires StagesOk(cfg, c) && Apart(cfg, c) && (e.Mkdir? || e.WriteFails? || e.CloseTemp?)
    ensures StagesOk(cfg, Step(cfg, c, e)) && Apart(cfg, Step(cfg, c, e))
    ensures Step(cfg, c, e).files == c.files && Step(cfg, c, e).writer.store == c.writer.store
  {
    hide TempPath, Path, A.Step, StagesOk, Apart;
    var d := Step(cfg, c, e);
    if d != c {
      if e.i in c.stages { Staged(cfg, c, e.i); }
      Returns(cfg.capacity, c.writer, e.i, false);
      OneWaits(cfg, c, d, e.i);
    }
  }

  lemma {:induction false} Staged(cfg: Config, c: Cache, i: nat)
    requires StagesOk(cfg, c) && i in c.stages
    ensures StageOk(cfg, c, i)
  {
  }

  /** A change at a temp file only. */
  lemma {:induction false} OnlyTemp(cfg: Config, files: map<string, Bytes>, files': map<string, Bytes>, key: Bytes, random: string)
    requires |key| > 0
    requires forall path :: path != TempPath(cfg.root, key, random) ==> Lookup(files', path) == Lookup(files, path)
    ensures OneTemp(cfg, files, files', TempPath(cfg.root, key, random))
    ensures forall other: Bytes :: |other| > 0 ==> Lookup(files', Path(cfg.root, other)) == Lookup(files, Path(cfg.root, other))
  {
    hide TempPath, Path;
    BlobsApart(cfg, TempPath(cfg.root, key, random), key, random);
  }

  /** The steps that make, fill or remove a temp file. */
  lemma {:induction false} KeepsTemp(cfg: Config, c: Cache, e: Event)
    requires StagesOk(cfg, c) && Apart(cfg, c) && (e.Create? || e.Write? || e.Remove?)
    ensures StagesOk(cfg, Step(cfg, c, e)) && Apart(cfg, Step(cfg, c, e))
    ensures forall key: Bytes :: |key| > 0 ==>
              Lookup(Step(cfg, c, e).files, Path(cfg.root, key)) == Lookup(c.files, Path(cfg.root, key))
    ensures Step(cfg, c, e).writer.store == c.writer.store
  {
    hide TempPath, Path, A.Step, StagesOk, Apart, OneTemp;
    var d, i := Step(cfg, c, e), e.i;
    if d != c {
      Staged(cfg, c, i);
      Returns(cfg.capacity, c.writer, i, false);
      if !e.Write? && !e.ok {
        OneWaits(cfg, c, d, i);
      } else {
        var key, data := c.writer.jobs[i].key, c.writer.jobs[i].data;
        var random := if e.Create? then e.random else c.stages[i].random;
        if e.Write? {
          var n := c.stages[i].written;
          assert data[..n] + data[n..n + e.n] == data[..n + e.n];
        }
        OnlyTemp(cfg, c.files, d.files, key, random);
        OneActs(cfg, c, d, i, TempPath(cfg.root, key, random));
      }
    }
  }

  /** The rename puts the whole blob under its own key and changes no other. */
  lemma {:induction false} KeepsRename(cfg: Config, c: Cache, i: nat, ok: bool)
    requires StagesOk(cfg, c) && Apart(cfg, c)
    ensures var d := Step(cfg, c, Rename(i, ok));
            && StagesOk(cfg, d) && Apart(cfg, d)
            && if StageOf(c, i).Shut? && At(c, i, StageOf(c, i))
               then var j := c.writer.jobs[i];
                    PutEffect(cfg.root, c.files, d.files, j.key, j.data, ok)
                    && d.writer.store == (if ok then c.writer.store[j.key := j.data] else c.writer.store)
               else d == c
  {
    hide TempPath, Path, A.Step, StagesOk, Apart;
    var d := Step(cfg, c, Rename(i, ok));
    if StageOf(c, i).Shut? && At(c, i, StageOf(c, i)) {
      Staged(cfg, c, i);
      Returns(cfg.capacity, c.writer, i, ok);
      if ok {
        var j, random := c.writer.jobs[i], c.stages[i].random;
        var temp := TempPath(cfg.root, j.key, random);
        assert c.files[temp] == j.data;
        BlobsApart(cfg, temp, j.key, random);
        RenameShows(cfg, c.files, d.files, j.key, j.data, random);
        OneActs(cfg, c, d, i, temp);
      } else {
        OneWaits(cfg, c, d, i);
      }
    }
  }

  lemma {:induction false} RenameShows(cfg: Config, files: map<string, Bytes>, files': map<string, Bytes>, key: Bytes, data: Bytes, random: string)
    requires |key| > 0 && files' == (files - {TempPath(cfg.root, key, random)})[Path(cfg.root, key) := data]
    ensures OneTemp(cfg, files, files', TempPath(cfg.root, key, random))
    ensures PutEffect(cfg.root, files, files', key, data, true)
  {
    hide TempPath, Path;
    var temp := TempPath(cfg.root, key, random);
    forall k: Bytes, r: string | |k| > 0 && TempPath(cfg.root, k, r) != temp
      ensures Lookup(files', TempPath(cfg.root, k, r)) == Lookup(files, TempPath(cfg.root, k, r))
    {
      TempIsNoBlob(cfg.root, k, r, key);
    }
    forall other: Bytes | |other| > 0
      ensures Lookup(files', Path(cfg.root, other)) == if other == key then Some(data) else Lookup(files, Path(cfg.root, other))
    {
      TempIsNoBlob(cfg.root, key, random, other);
      if Path(cfg.root, other) == Path(cfg.root, key) { PathInjective(cfg.root, other, key); }
    }
  }

  lemma {:induction false} KeepsWriter(cfg: Config, c: Cache, x: A.Event)
    requires StagesOk(cfg, c) && Apart(cfg, c) && A.Inv(cfg.capacity, c.writer) && !x.Put? && !x.LatePut?
    ensures var d := c.(writer := A.Step(cfg.capacity, c.writer, x));
            StagesOk(cfg, d) && Apart(cfg, d) && d.writer.store == c.writer.store
  {
    hide TempPath, Path, A.Step, A.Inv;
    var d := c.(writer := A.Step(cfg.capacity, c.writer, x));
    StoreStays(cfg.capacity, c.writer, x);
    forall i | i in d.stages ensures StageOk(cfg, d, i) && (TempOf(cfg, d, i).Some? ==> TempOf(cfg, d, i) == TempOf(cfg, c, i)) {
      assert StageOk(cfg, c, i);
      if c.stages[i] != Idle { StaysInPut(cfg.capacity, c.writer, x, i); }
    }
  }

  lemma {:induction false} StepKeeps(cfg: Config, c: Cache, e: Event)
    requires Inv(cfg, c) && A.Inv(cfg.capacity, c.writer)
    ensures Inv(cfg, Step(cfg, c, e))
  {
    hide TempPath, Path, A.Step, A.Inv, StagesOk, Apart, PutEffect;
    if e.Writer? {
      if !e.e.Put? && !e.e.LatePut? { KeepsWriter(cfg, c, e.e); }
    } else if e.Rename? {
      KeepsRename(cfg, c, e.i, e.ok);
      if StageOf(c, e.i).Shut? && At(c, e.i, StageOf(c, e.i)) {
        var j := c.writer.jobs[e.i];
        PutRefinesMap(cfg.root, c.files, Step(cfg, c, e).files, c.writer.store, j.key, j.data, e.ok);
      }
    } else if e.Mkdir? || e.WriteFails? || e.CloseTemp? {
      KeepsQuiet(cfg, c, e);
    } else {
      KeepsTemp(cfg, c, e);
    }
  }

  /**
   However the Puts overlap and fail: temp names in use are distinct, each temp file holds the first
   bytes of its own job's data, and the files represent the writer's map.
   */
  lemma {:induction false} RunKeeps(cfg: Config, files: map<string, Bytes>, es: seq<Event>)
    ensures Inv(cfg, Run(cfg, files, es))
    ensures A.Inv(cfg.capacity, Run(cfg, files, es).writer)
  {
    hide Step, A.Inv, A.Run, Trace, Represents;
    WriterRuns(cfg, files, es);
    R.RunKeeps(cfg.capacity, cfg.workers, StoreOf(cfg.root, files), Trace(cfg, files, es));
    if es == [] {
      FilesRepresent(cfg.root, files);
    } else {
      hide Inv;
      RunKeeps(cfg, files, es[..|es| - 1]);
      StepKeeps(cfg, Run(cfg, files, es[..|es| - 1]), es[|es| - 1]);
    }
  }

  // ---------- what readers see ----------

  /** The event is the successful rename of a job's temp file to its key's path. */
  predicate Renames(c: Cache, e: Event) {
    e.Rename? && e.ok && StageOf(c, e.i).Shut? && At(c, e.i, StageOf(c, e.i))
  }

  /** At any moment of any run, a key's blob changes only by a rename of a job for that key, to all of its data. */
  lemma {:induction false} OnlyRenameShows(cfg: Config, files: map<string, Bytes>, es: seq<Event>, e: Event, key: Bytes)
    requires |key| > 0
    ensures var c := Run(cfg, files, es);
            Lookup(Step(cfg, c, e).files, Path(cfg.root, key)) ==
            if Renames(c, e) && c.writer.jobs[e.i].key == key then Some(c.writer.jobs[e.i].data)
            else Lookup(c.files, Path(cfg.root, key))
  {
    hide TempPath, Path, A.Step, A.Inv, StagesOk, Apart, Run;
    var c := Run(cfg, files, es);
    RunKeeps(cfg, files, es);
    if e.Rename? {
      KeepsRename(cfg, c, e.i, e.ok);
    } else if e.Mkdir? || e.WriteFails? || e.CloseTemp? {
      KeepsQuiet(cfg, c, e);
    } else if !e.Writer? {
      KeepsTemp(cfg, c, e);
    }
  }

  /** In every run, at every moment, the files represent the writer's map. */
  lemma {:induction false} FilesAreStore(cfg: Config, files: map<string, Bytes>, es: seq<Event>)
    ensures var c := Run(cfg, files, es); Represents(cfg.root, c.files, c.writer.store)
  {
    hide Run, Represents, A.Inv, StagesOk, Apart;
    RunKeeps(cfg, files, es);
  }

  /**
   A Get at any moment sees all of the data of a write of that key that has been stored, or, if there is
   none, what the key held at first.
   */
  lemma {:induction false} GetSeesWholeBlob(cfg: Config, files: map<string, Bytes>, es: seq<Event>, key: Bytes)
    requires |key| > 0
    ensures var c := Run(cfg, files, es);
            var seen := Lookup(c.files, Path(cfg.root, key));
            if R.SomeWrote(c.writer.jobs, key) then seen.Some? && R.WroteThis(c.writer.jobs, key, seen.value)
            else seen == Lookup(files, Path(cfg.root, key))
  {
    hide Run, Path, A.Run, Trace, StoreOf;
    FilesRepresent(cfg.root, files);
    FilesAreStore(cfg, files, es);
    WriterRuns(cfg, files, es);
    R.StoreOfRun(cfg.capacity, cfg.workers, StoreOf(cfg.root, files), Trace(cfg, files, es), key);
  }

  /**
   After `Close`, when equal keys carry equal data and nothing failed, reading any key's file gives what
   doing the writes one after another would have left under that key.
   */
  lemma {:induction false} DrainedFiles(cfg: Config, files: map<string, Bytes>, es: seq<Event>, key: Bytes)
    requires |key| > 0 && (cfg.workers > 0 || cfg.capacity == 0)
    requires var w := Run(cfg, files, es).writer;
             && A.CanReturn(w) && R.Consistent(w.jobs) && w.failed == 0
             && forall i :: 0 <= i < |w.jobs| ==> R.Early(w.jobs[i])
    ensures var c := Run(cfg, files, es);
            Lookup(c.files, Path(cfg.root, key)) == Lookup(R.Sequential(StoreOf(cfg.root, files), c.writer.jobs), key)
  {
    hide Run, Path, A.Run, Trace, R.Sequential;
    FilesAreStore(cfg, files, es);
    WriterRuns(cfg, files, es);
    R.ClosedStore(cfg.capacity, cfg.workers, StoreOf(cfg.root, files), Trace(cfg, files, es));
  }

  lemma {:induction false} RunSnoc(cfg: Config, files: map<string, Bytes>, es: seq<Event>, e: Event)
    ensures Run(cfg, files, es + [e]) == Step(cfg, Run(cfg, files, es), e)
  {
    assert (es + [e])[..|es|] == es;
  }

  // ---------- a Put whose calls succeed ----------

  predicate Own(e: Event, i: nat) {
    !e.Writer? && e.i == i
  }

  function Owned(fs: seq<Event>, i: nat): nat {
    if fs == [] then 0 else Owned(fs[..|fs| - 1], i) + if Own(fs[|fs| - 1], i) then 1 else 0
  }

  /** The call that comes next in a Put, and it succeeds; a write takes some bytes, and a temp name is free. */
  predicate Due(cfg: Config, c: Cache, e: Event) {
    && !e.Writer? && At(c, e.i, StageOf(c, e.i))
    && var j := c.writer.jobs[e.i];
       match StageOf(c, e.i)
       case Idle => e.Mkdir? && e.ok
       case HasDir => e.Create? && e.ok && TempPath(cfg.root, j.key, e.random) !in c.files
       case Open(_, n) => (e.Write? && e.n > 0 && n + e.n <= |j.data|) || (e.CloseTemp? && e.ok && n == |j.data|)
       case Shut(_, _) => e.Rename? && e.ok
       case Removing(_, _) => false
  }

  /** In a stretch of a run every call of one Put is due, with any steps of the rest between them. */
  ghost predicate Succeeds(cfg: Config, files: map<string, Bytes>, es: seq<Event>, fs: seq<Event>, i: nat) {
    forall k :: 0 <= k < |fs| && Own(fs[k], i) ==> Due(cfg, Run(cfg, files, es + fs[..k]), fs[k])
  }

  /** How many more calls a Put of `n` bytes can make from a stage, when none fails. */
  function CallsLeft(st: Stage, n: nat): int {
    match st
    case Idle => n + 4
    case HasDir => n + 3
    case Open(_, written) => n - written + 2
    case Shut(_, _) => 1
    case Removing(_, _) => 0
  }

  lemma {:induction false} DueStep(cfg: Config, c: Cache, e: Event)
    requires StagesOk(cfg, c) && Due(cfg, c, e) && !e.Rename?
    ensures var d, n := Step(cfg, c, e), |c.writer.jobs[e.i].data|;
            && d.writer == c.writer && At(d, e.i, StageOf(d, e.i)) && !StageOf(d, e.i).Removing?
            && CallsLeft(StageOf(d, e.i), n) < CallsLeft(StageOf(c, e.i), n)
  {
    hide TempPath, Path, A.Step;
    if e.i in c.stages { assert StageOk(cfg, c, e.i); }
  }

  /** The rest of the cache does not touch a Put or its job. */
  lemma {:induction false} OthersStep(cfg: Config, c: Cache, e: Event, i: nat, st: Stage)
    requires A.Inv(cfg.capacity, c.writer) && At(c, i, st) && !Own(e, i)
    ensures var d := Step(cfg, c, e);
            && At(d, i, st)
            && d.writer.jobs[i].key == c.writer.jobs[i].key && d.writer.jobs[i].data == c.writer.jobs[i].data
  {
    hide TempPath, Path, A.Step, A.Inv;
    if e.Writer? {
      if !e.e.Put? && !e.e.LatePut? { StaysInPut(cfg.capacity, c.writer, e.e, i); }
    } else if InPut(c.writer, e.i) {
      Returns(cfg.capacity, c.writer, e.i, false);
      Returns(cfg.capacity, c.writer, e.i, true);
    }
  }

  /** Until its rename, a Put whose calls succeed goes on, and each of its calls brings it nearer to the end. */
  lemma {:induction false} PutGoesOn(cfg: Config, files: map<string, Bytes>, es: seq<Event>, fs: seq<Event>, i: nat)
    requires At(Run(cfg, files, es), i, Idle) && Succeeds(cfg, files, es, fs, i)
    requires forall k :: 0 <= k < |fs| ==> !(fs[k].Rename? && fs[k].i == i)
    ensures var j, d := Run(cfg, files, es).writer.jobs[i], Run(cfg, files, es + fs);
            && At(d, i, StageOf(d, i)) && !StageOf(d, i).Removing?
            && d.writer.jobs[i].key == j.key && d.writer.jobs[i].data == j.data
            && CallsLeft(StageOf(d, i), |j.data|) + Owned(fs, i) <= |j.data| + 4
    decreases |fs|
  {
    hide Step, Due, StagesOk, Apart, Represents, A.Inv;
    if fs == [] {
      assert es + fs == es;
    } else {
      var n := |fs| - 1;
      var init, e := fs[..n], fs[n];
      forall k | 0 <= k < |init| && Own(init[k], i) ensures Due(cfg, Run(cfg, files, es + init[..k]), init[k]) {
        assert init[..k] == fs[..k];
      }
      PutGoesOn(cfg, files, es, init, i);
      assert es + fs == es + init + [e];
      RunSnoc(cfg, files, es + init, e);
      var c := Run(cfg, files, es + init);
      RunKeeps(cfg, files, es + init);
      if Own(e, i) {
        DueStep(cfg, c, e);
      } else {
        OthersStep(cfg, c, e, i, StageOf(c, i));
      }
    }
  }

  /**
   A Put whose own calls succeed stores its blob, whatever the rest does between them: at its rename the
   key's file holds all of the data, and it makes no more calls than four and one for each byte.
   */
  lemma {:induction false} PutStores(cfg: Config, files: map<string, Bytes>, es: seq<Event>, fs: seq<Event>, i: nat)
    requires At(Run(cfg, files, es), i, Idle) && Succeeds(cfg, files, es, fs + [Rename(i, true)], i)
    requires forall k :: 0 <= k < |fs| ==> !(fs[k].Rename? && fs[k].i == i)
    ensures var j := Run(cfg, files, es).writer.jobs[i];
            && Lookup(Run(cfg, files, es + fs + [Rename(i, true)]).files, Path(cfg.root, j.key)) == Some(j.data)
            && Owned(fs, i) + 1 <= |j.data| + 4
  {
    hide Run, Step, Path;
    var all, e := fs + [Rename(i, true)], Rename(i, true);
    forall k | 0 <= k < |fs| && Own(fs[k], i) ensures Due(cfg, Run(cfg, files, es + fs[..k]), fs[k]) {
      assert all[..k] == fs[..k] && all[k] == fs[k];
    }
    PutGoesOn(cfg, files, es, fs, i);
    assert all[..|fs|] == fs && all[|fs|] == e;
    var d := Run(cfg, files, es + fs);
    assert Due(cfg, d, e);
    assert Renames(d, e);
    OnlyRenameShows(cfg, files, es + fs, e, d.writer.jobs[i].key);
    RunSnoc(cfg, files, es + fs, e);
  }

  // ---------- a Put that fails ----------

  /** A Put that returns leaves its temp file behind exactly when its rename fails, or the removal after another failure. */
  lemma {:induction false} TempLeftExactly(cfg: Config, files: map<string, Bytes>, es: seq<Event>, e: Event, i: nat)
    requires Own(e, i) && TempOf(cfg, Run(cfg, files, es), i).Some? && !InPut(Run(cfg, files, es + [e]).writer, i)
    ensures var temp := TempOf(cfg, Run(cfg, files, es), i).value;
            temp in Run(cfg, files, es + [e]).files <==> e == Rename(i, false) || e == Remove(i, false)
  {
    hide Run, Apart, Represents, TempPath, Path, A.Step, A.Inv;
    var c := Run(cfg, files, es);
    RunKeeps(cfg, files, es);
    RunSnoc(cfg, files, es, e);
    assert StageOk(cfg, c, i);
    var j := c.writer.jobs[i];
    BlobsApart(cfg, TempOf(cfg, c, i).value, j.key, StageOf(c, i).random);
  }

  lemma {:induction false} OthersLeaveStage(cfg: Config, files: map<string, Bytes>, es: seq<Event>, fs: seq<Event>, i: nat, st: Stage)
    requires At(Run(cfg, files, es), i, st) && forall k :: 0 <= k < |fs| ==> !Own(fs[k], i)
    ensures var c, d := Run(cfg, files, es), Run(cfg, files, es + fs);
            At(d, i, st) && d.writer.jobs[i].key == c.writer.jobs[i].key
    decreases |fs|
  {
    hide Step, StagesOk, Apart, Represents, A.Inv;
    if fs == [] {
      assert es + fs == es;
    } else {
      var n := |fs| - 1;
      OthersLeaveStage(cfg, files, es, fs[..n], i, st);
      assert es + fs == es + fs[..n] + [fs[n]];
      RunSnoc(cfg, files, es + fs[..n], fs[n]);
      RunKeeps(cfg, files, es + fs[..n]);
      OthersStep(cfg, Run(cfg, files, es + fs[..n]), fs[n], i, st);
    }
  }

  /** A write, or the close after the last, fails. */
  predicate Spoils(c: Cache, e: Event, i: nat) {
    && StageOf(c, i).Open? && At(c, i, StageOf(c, i))
    && (e == WriteFails(i) || (e == CloseTemp(i, false) && StageOf(c, i).written == |c.writer.jobs[i].data|))
  }

  /**
   A Put whose write or close fails takes its temp file with it and returns with an error: once it has
   removed the file it is no longer in the tree, whatever the rest does in between.
   */
  lemma {:induction false} FailedPutCleansUp(cfg: Config, files: map<string, Bytes>, es: seq<Event>, e: Event, fs: seq<Event>, i: nat)
    requires Spoils(Run(cfg, files, es), e, i) && forall k :: 0 <= k < |fs| ==> !Own(fs[k], i)
    ensures var c, d := Run(cfg, files, es), Run(cfg, files, es + [e] + fs + [Remove(i, true)]);
            && TempPath(cfg.root, c.writer.jobs[i].key, StageOf(c, i).random) !in d.files
            && !InPut(d.writer, i) && d.writer.store == Run(cfg, files, es + [e] + fs).writer.store
  {
    hide Run, TempPath, Path, A.Step;
    var c := Run(cfg, files, es);
    var st := Removing(StageOf(c, i).random, StageOf(c, i).written);
    RunSnoc(cfg, files, es, e);
    OthersLeaveStage(cfg, files, es + [e], fs, i, st);
    var d := Run(cfg, files, es + [e] + fs);
    RunSnoc(cfg, files, es + [e] + fs, Remove(i, true));
    Returns(cfg.capacity, d.writer, i, false);
  }
}
