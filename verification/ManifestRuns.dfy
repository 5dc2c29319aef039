/** Every run of the manifest: no append is lost, and crashes leave prefixes. */
module ManifestRuns {
  import opened Basics
  import opened AtomicFile
  import opened Manifest

  // ---------- every event keeps it ----------

  /** Later commits do not change the manifest after the first `n`. */
  lemma {:induction false} AfterStable(cfg: Config, first: Disk, log: seq<(nat, Record)>, longer: seq<(nat, Record)>, n: nat)
    requires n <= |log| && log <= longer
    ensures After(cfg, first, longer, n) == After(cfg, first, log, n)
  {
    assert longer[..n] == log[..n];
  }

  lemma {:induction false} ShowsStable(cfg: Config, first: Disk, log: seq<(nat, Record)>, longer: seq<(nat, Record)>, d: Disk)
    requires ShowsSome(cfg, first, log, d) && log <= longer
    ensures ShowsSome(cfg, first, longer, d)
  {
    var n :| Shows(cfg, first, log, d, n);
    AfterStable(cfg, first, log, longer, n);
    assert Shows(cfg, first, longer, d, n);
  }

  lemma {:induction false} ListedStable(cfg: Config, first: Disk, log: seq<(nat, Record)>, longer: seq<(nat, Record)>, rs: seq<Record>)
    requires Listed(cfg, first, log, rs) && log <= longer
    ensures Listed(cfg, first, longer, rs)
  {
    var n: nat :| n <= |log| && After(cfg, first, log, n) == Some(rs);
    AfterStable(cfg, first, log, longer, n);
  }

  /** Calls outside the lock are unaffected by what the lock's owner does. */
  lemma {:induction false} OthersOk(cfg: Config, s: State, t: State, c: Call)
    requires t.first == s.first && s.log <= t.log
    requires StageOk(cfg, s, c)
    requires !InLock(c.stage) || (t.disk == s.disk && t.log == s.log)
    ensures StageOk(cfg, t, c)
  {
    if c.stage.Done? && c.stage.outcome.Records? {
      ListedStable(cfg, s.first, s.log, t.log, c.stage.outcome.records);
    }
  }

  lemma {:induction false} LogSame(s: State, t: State, i: nat, stage: Stage)
    requires LogOk(s) && i < |s.calls| && t.calls == Move(s, i, stage).calls && t.log == s.log
    requires Succeeded(s.calls[i]) <==> Succeeded(t.calls[i])
    ensures LogOk(t)
  {
    forall k | 0 <= k < |t.log| ensures Committed(t, t.log[k]) {
      assert Committed(s, s.log[k]);
    }
    forall j | 0 <= j < |t.calls| && Succeeded(t.calls[j]) ensures Logged(t, j) {
      assert Logged(s, j);
    }
  }

  function OwnerAfter(s: State, i: nat, stage: Stage): Option<nat> {
    if InLock(stage) then Some(i) else if s.owner == Some(i) then None else s.owner
  }

  /** What the invariant says of one call. */
  lemma {:induction false} CallFacts(cfg: Config, s: State, i: nat)
    requires Inv(cfg, s) && i < |s.calls|
    ensures StageOk(cfg, s, s.calls[i]) && (InLock(s.calls[i].stage) <==> s.owner == Some(i))
    ensures Faithful(cfg.codec) && Shows(cfg, s.first, s.log, s.disk, |s.log|)
  {
  }

  /** A call moves on; the disk does not change. */
  lemma {:induction false} CallMoves(cfg: Config, s: State, t: State, i: nat, stage: Stage)
    requires Inv(cfg, s) && i < |s.calls|
    requires t == Move(s, i, stage).(owner := OwnerAfter(s, i, stage))
    requires InLock(stage) ==> s.owner == None || s.owner == Some(i)
    requires Succeeded(s.calls[i]) <==> Succeeded(t.calls[i])
    requires StageOk(cfg, s, t.calls[i])
    ensures Inv(cfg, t)
  {
    hide ValidDisk, Lasting, Faithful, Shows, ShowsSome;
    OthersOk(cfg, s, t, t.calls[i]);
    LogSame(s, t, i, stage);
    forall j | 0 <= j < |t.calls| ensures StageOk(cfg, t, t.calls[j]) {
      if j != i { OthersOk(cfg, s, t, s.calls[j]); }
    }
  }

  lemma {:induction false} DiskGrows(cfg: Config, s: State, t: State, d: Disk)
    requires DiskOk(cfg, s) && t.first == s.first && t.trace == s.trace + [d] && t.disk == d && s.log <= t.log
    requires Keeps(s.disk, d)
    requires Shows(cfg, s.first, t.log, d, |t.log|)
    requires Parse(cfg.codec, Content(s.first, cfg.base)).None? ==> t.log == []
    ensures DiskOk(cfg, t)
  {
    LastingGrows(s.trace, d);
    forall k | 0 <= k < |t.trace| ensures ShowsSome(cfg, s.first, t.log, t.trace[k]) {
      if k < |s.trace| { ShowsStable(cfg, s.first, s.log, t.log, s.trace[k]); }
    }
  }

  /** The owner changes the disk, but not the manifest. */
  lemma {:induction false} DiskMoves(cfg: Config, s: State, t: State, i: nat, stage: Stage, d: Disk)
    requires Inv(cfg, s) && s.owner == Some(i) && i < |s.calls| && InLock(stage)
    requires t == Put(Move(s, i, stage), d)
    requires !Succeeded(s.calls[i]) && !Succeeded(t.calls[i])
    requires ValidDisk(d) && Settled(d, cfg.base) && Keeps(s.disk, d)
    requires Content(d, cfg.base) == Content(s.disk, cfg.base)
    requires StageOk(cfg, t, t.calls[i])
    ensures Inv(cfg, t)
  {
    assert Shows(cfg, s.first, s.log, s.disk, |s.log|);
    DiskGrows(cfg, s, t, d);
    LogSame(s, t, i, stage);
    assert LockOk(t);
    forall j | 0 <= j < |t.calls| ensures StageOk(cfg, t, t.calls[j]) {
      if j != i { OthersOk(cfg, s, t, s.calls[j]); }
    }
  }

  lemma {:induction false} KeepsArrive(cfg: Config, s: State, request: Request)
    requires Inv(cfg, s)
    ensures Inv(cfg, s.(calls := s.calls + [Call(request, Waiting)]))
  {
    hide ValidDisk, Lasting, Faithful, Shows, ShowsSome;
    var t := s.(calls := s.calls + [Call(request, Waiting)]);
    assert DiskOk(cfg, t);
    forall k | 0 <= k < |t.log| ensures Committed(t, t.log[k]) {
      assert Committed(s, s.log[k]);
    }
    forall j | 0 <= j < |t.calls| && Succeeded(t.calls[j]) ensures Logged(t, j) {
      assert Logged(s, j);
    }
    forall j | 0 <= j < |t.calls| ensures StageOk(cfg, t, t.calls[j]) {
      if j < |s.calls| { OthersOk(cfg, s, t, s.calls[j]); }
    }
  }

  lemma {:induction false} KeepsLockAndUnlock(cfg: Config, s: State, i: nat)
    requires Inv(cfg, s)
    ensures Inv(cfg, DoCancel(s, i)) && Inv(cfg, DoLock(s, i)) && Inv(cfg, DoUnlock(s, i))
  {
    hide Inv;
    var stage := StageOf(s, i);
    if stage.Waiting? {
      CallFacts(cfg, s, i);
      CallMoves(cfg, s, DoCancel(s, i), i, Done(Failed));
      if s.owner.None? { CallMoves(cfg, s, DoLock(s, i), i, Holding); }
    }
    if stage.Leaving? {
      CallFacts(cfg, s, i);
      CallMoves(cfg, s, DoUnlock(s, i), i, Done(stage.outcome));
    }
  }

  lemma {:induction false} KeepsLoad(cfg: Config, s: State, i: nat, readFails: bool)
    requires Inv(cfg, s)
    ensures Inv(cfg, DoLoad(cfg, s, i, readFails))
  {
    hide Inv;
    var t := DoLoad(cfg, s, i, readFails);
    if StageOf(s, i).Holding? {
      CallFacts(cfg, s, i);
      if StageOf(t, i).Leaving? && StageOf(t, i).outcome.Records? {
        assert Listed(cfg, s.first, s.log, StageOf(t, i).outcome.records);
      }
      CallMoves(cfg, s, t, i, StageOf(t, i));
    }
  }

  lemma {:induction false} KeepsMakeTemp(cfg: Config, s: State, i: nat, temp: string, fails: bool)
    requires Inv(cfg, s)
    ensures Inv(cfg, DoMakeTemp(cfg, s, i, temp, fails))
  {
    hide Inv;
    var t := DoMakeTemp(cfg, s, i, temp, fails);
    if StageOf(s, i).Loaded? {
      CallFacts(cfg, s, i);
      if StageOf(t, i).Leaving? {
        CallMoves(cfg, s, t, i, Leaving(Failed));
      } else {
        TempIsNotTarget(cfg.base, temp);
        var payload := cfg.codec.encode(StageOf(s, i).records + [s.calls[i].request.rec]);
        assert [] + payload == payload;
        DiskMoves(cfg, s, t, i, StageOf(t, i), Create(s.disk, temp));
      }
    }
  }

  lemma {:induction false} KeepsWrite(cfg: Config, s: State, i: nat, n: nat)
    requires Inv(cfg, s)
    ensures Inv(cfg, DoWrite(s, i, n))
  {
    hide Inv;
    var was := StageOf(s, i);
    if was.Writing? && n <= |was.rest| {
      CallFacts(cfg, s, i);
      var d := AppendTo(s.disk, was.inode, was.rest[..n]);
      assert was.rest[..n] + was.rest[n..] == was.rest;
      assert s.disk.data[was.inode] + was.rest[..n] + was.rest[n..] == s.disk.data[was.inode] + was.rest;
      DiskMoves(cfg, s, DoWrite(s, i, n), i, was.(rest := was.rest[n..]), d);
    }
  }

  lemma {:induction false} KeepsFlush(cfg: Config, s: State, i: nat)
    requires Inv(cfg, s)
    ensures Inv(cfg, DoFlush(s, i))
  {
    hide Inv;
    var was := StageOf(s, i);
    if was.Writing? && was.rest == [] {
      CallFacts(cfg, s, i);
      assert s.disk.data[was.inode] + [] == s.disk.data[was.inode];
      DiskMoves(cfg, s, DoFlush(s, i), i, Written(was.records, was.temp, was.inode), Sync(s.disk, was.inode));
    }
  }

  lemma {:induction false} KeepsAbort(cfg: Config, s: State, i: nat, removed: bool)
    requires Inv(cfg, s)
    ensures Inv(cfg, DoAbort(s, i, removed))
  {
    hide Inv;
    var stage := StageOf(s, i);
    if stage.Writing? || stage.Written? {
      CallFacts(cfg, s, i);
      if removed {
        TempIsNotTarget(cfg.base, stage.temp);
        DiskMoves(cfg, s, DoAbort(s, i, removed), i, Leaving(Failed), Remove(s.disk, stage.temp));
      } else {
        CallMoves(cfg, s, DoAbort(s, i, removed), i, Leaving(Failed));
      }
    }
  }

  lemma {:induction false} RecsGrow(cfg: Config, first: Disk, log: seq<(nat, Record)>, i: nat, rec: Record, rs: seq<Record>)
    requires After(cfg, first, log, |log|) == Some(rs)
    ensures After(cfg, first, log + [(i, rec)], |log| + 1) == Some(rs + [rec])
  {
    var longer := log + [(i, rec)];
    assert longer[..|log| + 1] == longer && longer[..|log|] == log && log[..|log|] == log;
    assert Recs(longer) == Recs(log) + [rec];
    var read := Parse(cfg.codec, Content(first, cfg.base)).value;
    assert read + Recs(log) + [rec] == read + (Recs(log) + [rec]);
  }

  /** Renaming a flushed temp file installs it. */
  lemma {:induction false} Installed(d: Disk, base: string, temp: string, inode: nat)
    requires ValidDisk(d) && Temp(d, base, temp, inode) && inode in d.synced
    ensures var e := Rename(d, temp, base);
            ValidDisk(e) && Settled(e, base) && Keeps(d, e) && Content(e, base) == Some(d.data[inode])
  {
    TempIsNotTarget(base, temp);
  }

  lemma {:induction false} LogGrows(s: State, t: State, i: nat, rec: Record)
    requires LogOk(s) && i < |s.calls| && !Succeeded(s.calls[i]) && s.calls[i].request == Append(rec)
    requires t.calls == Move(s, i, Leaving(Appended)).calls && t.log == s.log + [(i, rec)]
    ensures LogOk(t)
  {
    forall k | 0 <= k < |t.log| ensures Committed(t, t.log[k]) {
      if k < |s.log| { assert Committed(s, s.log[k]); }
    }
    forall j, k | 0 <= j < k < |t.log| ensures t.log[j].0 != t.log[k].0 {
      assert Committed(s, s.log[j]);
    }
    forall j | 0 <= j < |t.calls| && Succeeded(t.calls[j]) ensures Logged(t, j) {
      if j == i {
        assert t.log[|s.log|].0 == i;
      } else {
        assert Logged(s, j);
        var k :| 0 <= k < |s.log| && s.log[k].0 == j;
        assert t.log[k].0 == j;
      }
    }
  }

  /** The rename installs the manifest with exactly one more record. */
  lemma {:induction false} KeepsCommit(cfg: Config, s: State, i: nat)
    requires Inv(cfg, s)
    ensures Inv(cfg, DoCommit(cfg, s, i))
  {
    var was := StageOf(s, i);
    if was.Written? {
      assert StageOk(cfg, s, s.calls[i]);
      var t, d := DoCommit(cfg, s, i), Rename(s.disk, was.temp, cfg.base);
      var rec := s.calls[i].request.rec;
      Installed(s.disk, cfg.base, was.temp, was.inode);
      RecsGrow(cfg, s.first, s.log, i, rec, was.records);
      assert Shows(cfg, s.first, t.log, d, |t.log|);
      DiskGrows(cfg, s, t, d);
      LogGrows(s, t, i, rec);
      CommitOthers(cfg, s, t, i);
    }
  }

  lemma {:induction false} CommitOthers(cfg: Config, s: State, t: State, i: nat)
    requires LockOk(s) && CallsOk(cfg, s) && s.owner == Some(i) && i < |s.calls|
    requires t.calls == Move(s, i, Leaving(Appended)).calls && t.owner == s.owner
    requires t.first == s.first && s.log <= t.log
    ensures LockOk(t) && CallsOk(cfg, t)
  {
    forall j | 0 <= j < |t.calls| ensures StageOk(cfg, t, t.calls[j]) {
      if j != i { OthersOk(cfg, s, t, s.calls[j]); }
    }
  }

  lemma {:induction false} Starts(cfg: Config, disk: Disk)
    requires Faithful(cfg.codec) && ValidDisk(disk) && Settled(disk, cfg.base)
    ensures Inv(cfg, Start(disk))
  {
    var s := Start(disk);
    assert s.log[..0] == s.log;
    if Parse(cfg.codec, Content(disk, cfg.base)).Some? {
      var first := Parse(cfg.codec, Content(disk, cfg.base)).value;
      assert first + [] == first;
    }
    assert Shows(cfg, disk, s.log, disk, 0);
  }

  lemma {:induction false} RunKeeps(cfg: Config, disk: Disk, es: seq<Event>)
    requires Faithful(cfg.codec) && ValidDisk(disk) && Settled(disk, cfg.base)
    ensures Inv(cfg, Run(cfg, disk, es))
  {
    hide Inv;
    if es == [] {
      Starts(cfg, disk);
    } else {
      var s, e := Run(cfg, disk, es[..|es| - 1]), es[|es| - 1];
      RunKeeps(cfg, disk, es[..|es| - 1]);
      match e
      case Arrive(request) => KeepsArrive(cfg, s, request);
      case Load(i, readFails) => KeepsLoad(cfg, s, i, readFails);
      case MakeTemp(i, temp, fails) => KeepsMakeTemp(cfg, s, i, temp, fails);
      case Write(i, n) => KeepsWrite(cfg, s, i, n);
      case Flush(i) => KeepsFlush(cfg, s, i);
      case Commit(i) => KeepsCommit(cfg, s, i);
      case Abort(i, removed) => KeepsAbort(cfg, s, i, removed);
      case _ => KeepsLockAndUnlock(cfg, s, e.i);
    }
  }

  // ---------- what every run promises ----------

  lemma {:induction false} RecsPrefix(log: seq<(nat, Record)>, n: nat)
    requires n <= |log|
    ensures Recs(log[..n]) <= Recs(log)
    decreases |log|
  {
    if n < |log| {
      assert log[..|log| - 1][..n] == log[..n];
      RecsPrefix(log[..|log| - 1], n);
    } else {
      assert log[..n] == log;
    }
  }

  /** The records the run started with. */
  ghost function Initial(cfg: Config, disk: Disk): Option<seq<Record>> {
    Parse(cfg.codec, Content(disk, cfg.base))
  }

  lemma {:induction false} AfterIsPrefix(cfg: Config, first: Disk, log: seq<(nat, Record)>, n: nat)
    requires n <= |log| && Initial(cfg, first).Some?
    ensures After(cfg, first, log, n).Some?
    ensures Initial(cfg, first).value <= After(cfg, first, log, n).value <= Initial(cfg, first).value + Recs(log)
    ensures n == |log| ==> After(cfg, first, log, n).value == Initial(cfg, first).value + Recs(log)
  {
    RecsPrefix(log, n);
    assert n == |log| ==> log[..n] == log;
  }

  /** What the invariant's view of a disk means. */
  lemma {:induction false} InitialReads(cfg: Config, d: Disk, rs: seq<Record>)
    requires cfg.base in d.names ==> d.names[cfg.base] in d.data
    ensures Initial(cfg, d) == Some(rs) <==> Reads(cfg.codec, d, cfg.base, rs)
  {
    ParseReads(cfg.codec, d, cfg.base);
  }

  /**
   In every run the manifest is the starting records followed by the committed ones in order, and
   the committed calls are exactly the successful appends, each once and with its own record.
   */
  lemma {:induction false} NoAppendLost(cfg: Config, disk: Disk, es: seq<Event>, rs: seq<Record>)
    requires Faithful(cfg.codec) && ValidDisk(disk) && Settled(disk, cfg.base) && Reads(cfg.codec, disk, cfg.base, rs)
    ensures var s := Run(cfg, disk, es);
            && Reads(cfg.codec, s.disk, cfg.base, rs + Recs(s.log))
            && LogOk(s)
  {
    hide Run, Reads, LogOk, LockOk, CallsOk;
    RunKeeps(cfg, disk, es);
    var s := Run(cfg, disk, es);
    FirstStays(cfg, disk, es);
    InitialReads(cfg, disk, rs);
    AfterIsPrefix(cfg, disk, s.log, |s.log|);
    InitialReads(cfg, s.disk, rs + Recs(s.log));
  }

  lemma {:induction false} FirstStays(cfg: Config, disk: Disk, es: seq<Event>)
    ensures Run(cfg, disk, es).first == disk
  {
    if es != [] { FirstStays(cfg, disk, es[..|es| - 1]); }
  }

  /**
   A crash at any step of any run leaves a prefix of the appended sequence; when no name change is
   lost (the process died, the machine did not) it leaves all committed records.
   */
  lemma {:induction false} CrashLeavesPrefix(cfg: Config, disk: Disk, es: seq<Event>, j: nat, c: Disk, rs: seq<Record>)
    returns (found: seq<Record>)
    requires Faithful(cfg.codec) && ValidDisk(disk) && Settled(disk, cfg.base) && Reads(cfg.codec, disk, cfg.base, rs)
    requires j < |Run(cfg, disk, es).trace| && CrashOf(Run(cfg, disk, es).trace[j], Run(cfg, disk, es).disk, c)
    ensures var s := Run(cfg, disk, es);
            && Reads(cfg.codec, c, cfg.base, found) && rs <= found <= rs + Recs(s.log)
            && (s.trace[j] == s.disk ==> found == rs + Recs(s.log))
  {
    hide Run, Reads, LogOk, LockOk, CallsOk;
    RunKeeps(cfg, disk, es);
    FirstStays(cfg, disk, es);
    InitialReads(cfg, disk, rs);
    var s := Run(cfg, disk, es);
    assert ShowsSome(cfg, s.first, s.log, s.trace[j]);
    var n :| Shows(cfg, s.first, s.log, s.trace[j], n);
    CrashKeepsSettled(s.trace, j, |s.trace| - 1, c, cfg.base);
    AfterIsPrefix(cfg, disk, s.log, n);
    AfterIsPrefix(cfg, disk, s.log, |s.log|);
    found := Initial(cfg, c).value;
    assert Keeps(s.trace[j], s.trace[|s.trace| - 1]);
    InitialReads(cfg, c, found);
  }

  /** A manifest that does not decode is never overwritten, and no append on it succeeds. */
  lemma {:induction false} MalformedStays(cfg: Config, disk: Disk, es: seq<Event>)
    requires Faithful(cfg.codec) && ValidDisk(disk) && Settled(disk, cfg.base) && Malformed(cfg.codec, disk, cfg.base)
    ensures var s := Run(cfg, disk, es);
            && Content(s.disk, cfg.base) == Content(disk, cfg.base)
            && forall i :: 0 <= i < |s.calls| ==> !Succeeded(s.calls[i])
  {
    RunKeeps(cfg, disk, es);
    FirstStays(cfg, disk, es);
    ParseReads(cfg.codec, disk, cfg.base);
    var s := Run(cfg, disk, es);
    forall i | 0 <= i < |s.calls| ensures !Succeeded(s.calls[i]) {
      assert Succeeded(s.calls[i]) ==> Logged(s, i);
    }
  }

  /** What a `List` call returns is the manifest at some point of the run. */
  lemma {:induction false} ListReturnsPrefix(cfg: Config, disk: Disk, es: seq<Event>, i: nat, rs: seq<Record>)
    requires Faithful(cfg.codec) && ValidDisk(disk) && Settled(disk, cfg.base) && Reads(cfg.codec, disk, cfg.base, rs)
    requires i < |Run(cfg, disk, es).calls| && Run(cfg, disk, es).calls[i].stage.Done?
    requires Run(cfg, disk, es).calls[i].stage.outcome.Records?
    ensures var s := Run(cfg, disk, es);
            rs <= s.calls[i].stage.outcome.records <= rs + Recs(s.log)
  {
    hide Run, Reads, LogOk, LockOk, DiskOk;
    RunKeeps(cfg, disk, es);
    FirstStays(cfg, disk, es);
    InitialReads(cfg, disk, rs);
    var s := Run(cfg, disk, es);
    assert StageOk(cfg, s, s.calls[i]);
    var n: nat :| n <= |s.log| && After(cfg, s.first, s.log, n) == Some(s.calls[i].stage.outcome.records);
    AfterIsPrefix(cfg, disk, s.log, n);
  }

  lemma {:induction false} RunSnoc(cfg: Config, disk: Disk, es: seq<Event>, e: Event)
    ensures Run(cfg, disk, es + [e]) == Step(cfg, Run(cfg, disk, es), e)
  {
    assert (es + [e])[..|es|] == es;
  }

  predicate HasListed(c: Call) {
    (c.stage.Leaving? || c.stage.Done?) && c.stage.outcome.Records?
  }

  /** A listing shows at least the first `n` commits. */
  ghost predicate ListedFrom(cfg: Config, s: State, c: Call, n: nat)
    requires HasListed(c)
  {
    exists m: nat :: n <= m <= |s.log| && After(cfg, s.first, s.log, m) == Some(c.stage.outcome.records)
  }

  /** Calls made after the first `from` ones list at least the first `n` commits. */
  ghost predicate LateLists(cfg: Config, s: State, from: nat, n: nat) {
    && from <= |s.calls| && n <= |s.log|
    && forall i :: from <= i < |s.calls| && HasListed(s.calls[i]) ==> ListedFrom(cfg, s, s.calls[i], n)
  }

  lemma {:induction false} ListedFromStable(cfg: Config, s: State, t: State, c: Call, n: nat)
    requires HasListed(c) && ListedFrom(cfg, s, c, n) && t.first == s.first && s.log <= t.log
    ensures ListedFrom(cfg, t, c, n)
  {
    var m: nat :| n <= m <= |s.log| && After(cfg, s.first, s.log, m) == Some(c.stage.outcome.records);
    AfterStable(cfg, s.first, s.log, t.log, m);
  }

  /** No event but a load makes a listing. */
  lemma {:induction false} NotListed(cfg: Config, s: State, e: Event, i: nat)
    requires !e.Load?
    ensures var t := Step(cfg, s, e);
            && t.first == s.first && s.log <= t.log && |s.calls| <= |t.calls|
            && (i < |t.calls| && HasListed(t.calls[i]) ==>
                  i < |s.calls| && HasListed(s.calls[i]) && s.calls[i].stage.outcome == t.calls[i].stage.outcome)
  {
    hide Create, AppendTo, Sync, Rename, Remove, IsTemp;
    if e.MakeTemp? {
    } else if e.Write? || e.Flush? {
    } else if e.Commit? || e.Abort? {
    }
  }

  /** A load lists the manifest of the moment. */
  lemma {:induction false} LoadLists(cfg: Config, s: State, e: Event, i: nat)
    requires Inv(cfg, s) && e.Load?
    ensures var t := Step(cfg, s, e);
            && t.first == s.first && s.log == t.log && |s.calls| == |t.calls|
            && (i < |t.calls| && HasListed(t.calls[i]) ==>
                  || (HasListed(s.calls[i]) && s.calls[i].stage.outcome == t.calls[i].stage.outcome)
                  || After(cfg, s.first, s.log, |s.log|) == Some(t.calls[i].stage.outcome.records))
  {
    hide Inv, After, Parse, Content;
    if e.i < |s.calls| { CallFacts(cfg, s, e.i); }
  }

  lemma {:induction false} LateStep(cfg: Config, s: State, e: Event, from: nat, n: nat)
    requires Inv(cfg, s) && LateLists(cfg, s, from, n)
    ensures LateLists(cfg, Step(cfg, s, e), from, n)
  {
    hide Inv, Step, After;
    var t := Step(cfg, s, e);
    if e.Load? { LoadLists(cfg, s, e, from); } else { NotListed(cfg, s, e, from); }
    forall i | from <= i < |t.calls| && HasListed(t.calls[i]) ensures ListedFrom(cfg, t, t.calls[i], n) {
      if e.Load? { LoadLists(cfg, s, e, i); } else { NotListed(cfg, s, e, i); }
      if i < |s.calls| && HasListed(s.calls[i]) && s.calls[i].stage.outcome == t.calls[i].stage.outcome {
        ListedFromStable(cfg, s, t, s.calls[i], n);
      } else {
        assert After(cfg, s.first, s.log, |s.log|) == Some(t.calls[i].stage.outcome.records);
        AfterStable(cfg, s.first, s.log, t.log, |s.log|);
      }
    }
  }

  lemma {:induction false} LateRun(cfg: Config, disk: Disk, es: seq<Event>, fs: seq<Event>)
    requires Faithful(cfg.codec) && ValidDisk(disk) && Settled(disk, cfg.base)
    ensures var s := Run(cfg, disk, es);
            LateLists(cfg, Run(cfg, disk, es + fs), |s.calls|, |s.log|) && s.log <= Run(cfg, disk, es + fs).log
    decreases |fs|
  {
    hide Step, Inv, LateLists;
    if fs == [] {
      assert es + fs == es;
      NoneLate(cfg, Run(cfg, disk, es));
    } else {
      var init, e := fs[..|fs| - 1], fs[|fs| - 1];
      var s, t := Run(cfg, disk, es), Run(cfg, disk, es + init);
      LateRun(cfg, disk, es, init);
      RunKeeps(cfg, disk, es + init);
      assert es + fs == es + init + [e];
      RunSnoc(cfg, disk, es + init, e);
      LateStep(cfg, t, e, |s.calls|, |s.log|);
      if e.Load? { LoadLists(cfg, t, e, 0); } else { NotListed(cfg, t, e, 0); }
    }
  }

  lemma {:induction false} NoneLate(cfg: Config, s: State)
    ensures LateLists(cfg, s, |s.calls|, |s.log|)
  {
  }

  /**
   A `List` that begins after any point of the run returns all records committed by then, in order:
   those of every `Append` that has returned without an error among them.
   */
  lemma {:induction false} ListSeesAppends(cfg: Config, disk: Disk, es: seq<Event>, fs: seq<Event>, i: nat, rs: seq<Record>)
    requires Faithful(cfg.codec) && ValidDisk(disk) && Settled(disk, cfg.base) && Reads(cfg.codec, disk, cfg.base, rs)
    requires |Run(cfg, disk, es).calls| <= i < |Run(cfg, disk, es + fs).calls|
    requires HasListed(Run(cfg, disk, es + fs).calls[i])
    ensures var s := Run(cfg, disk, es);
            && LogOk(s)
            && rs + Recs(s.log) <= Run(cfg, disk, es + fs).calls[i].stage.outcome.records
  {
    hide Run, Step, DiskOk, CallsOk, Reads;
    InitialReads(cfg, disk, rs);
    var s, t := Run(cfg, disk, es), Run(cfg, disk, es + fs);
    RunKeeps(cfg, disk, es);
    LateRun(cfg, disk, es, fs);
    FirstStays(cfg, disk, es + fs);
    var listed := t.calls[i].stage.outcome.records;
    assert ListedFrom(cfg, t, t.calls[i], |s.log|);
    var m: nat :| |s.log| <= m <= |t.log| && After(cfg, t.first, t.log, m) == Some(listed);
    assert t.log[..m][..|s.log|] == s.log;
    RecsPrefix(t.log[..m], |s.log|);
  }

  // ---------- a call whose system calls succeed ----------

  predicate Own(e: Event, i: nat) {
    !e.Arrive? && e.i == i
  }

  /** The step that comes next in call `i`, and it succeeds; a write takes some bytes, and a temp name is free. */
  predicate Due(cfg: Config, s: State, e: Event, i: nat) {
    && i < |s.calls|
    && match s.calls[i].stage
       case Waiting => e == Lock(i) && s.owner.None?
       case Holding => e == Load(i, false)
       case Loaded(_) => e.MakeTemp? && e.i == i && !e.fails && IsTemp(cfg.base, e.temp) && e.temp !in s.disk.names
       case Writing(_, _, _, rest) => if rest == [] then e == Flush(i) else e.Write? && e.i == i && 0 < e.n <= |rest|
       case Written(_, _, _) => e == Commit(i)
       case Leaving(_) => e == Unlock(i)
       case Done(_) => false
  }

  ghost predicate Succeeds(cfg: Config, disk: Disk, es: seq<Event>, fs: seq<Event>, i: nat) {
    forall k :: 0 <= k < |fs| && Own(fs[k], i) ==> Due(cfg, Run(cfg, disk, es + fs[..k]), fs[k], i)
  }

  /** The call has not failed, and is no further than its request asks. */
  predicate Goes(c: Call) {
    match c.stage
    case Waiting => true
    case Holding => true
    case Leaving(o) => if c.request.Append? then o.Appended? else o.Records?
    case Done(o) => if c.request.Append? then o.Appended? else o.Records?
    case _ => c.request.Append?
  }

  /** How far a stage is from the end, and how many bytes it has still to write. */
  function Rank(stage: Stage): (nat, nat) {
    match stage
    case Waiting => (6, 0)
    case Holding => (5, 0)
    case Loaded(_) => (4, 0)
    case Writing(_, _, _, rest) => (3, |rest|)
    case Written(_, _, _) => (2, 0)
    case Leaving(_) => (1, 0)
    case Done(_) => (0, 0)
  }

  lemma {:induction false} DueStep(cfg: Config, s: State, e: Event, i: nat)
    requires Inv(cfg, s) && Initial(cfg, s.first).Some? && Due(cfg, s, e, i) && Goes(s.calls[i])
    ensures var t := Step(cfg, s, e);
            && i < |t.calls| && t.calls[i].request == s.calls[i].request && Goes(t.calls[i])
            && var (a, b) := (Rank(t.calls[i].stage), Rank(s.calls[i].stage)); a.0 < b.0 || (a.0 == b.0 && a.1 < b.1)
  {
    hide Inv, Create, AppendTo, Sync, Rename, Remove, IsTemp;
    CallFacts(cfg, s, i);
  }

  lemma {:induction false} OthersStep(cfg: Config, s: State, e: Event, i: nat)
    requires i < |s.calls| && !Own(e, i)
    ensures var t := Step(cfg, s, e); i < |t.calls| && t.calls[i] == s.calls[i]
  {
    hide Create, AppendTo, Sync, Rename, Remove, IsTemp, Parse, Content;
  }

  /**
   A call whose own system calls succeed goes on whatever the others do: it never fails on a manifest that
   can be read, each of its steps brings it nearer to its end, and when an `Append` is done its record is
   committed.
   */
  lemma {:induction false} CallsGoOn(cfg: Config, disk: Disk, es: seq<Event>, fs: seq<Event>, i: nat, rs: seq<Record>)
    requires Faithful(cfg.codec) && ValidDisk(disk) && Settled(disk, cfg.base) && Reads(cfg.codec, disk, cfg.base, rs)
    requires i < |Run(cfg, disk, es).calls| && Run(cfg, disk, es).calls[i].stage.Waiting? && Succeeds(cfg, disk, es, fs, i)
    ensures var s, t := Run(cfg, disk, es), Run(cfg, disk, es + fs);
            && i < |t.calls| && t.calls[i].request == s.calls[i].request && Goes(t.calls[i])
            && (t.calls[i].stage.Done? && t.calls[i].request.Append? ==> Logged(t, i))
    decreases |fs|
  {
    hide Step, Due, DiskOk, LockOk, CallsOk, Reads;
    var t := Run(cfg, disk, es + fs);
    RunKeeps(cfg, disk, es + fs);
    if fs == [] {
      assert es + fs == es;
    } else {
      var n := |fs| - 1;
      var s, e := Run(cfg, disk, es + fs[..n]), fs[n];
      forall k | 0 <= k < n && Own(fs[..n][k], i) ensures Due(cfg, Run(cfg, disk, es + fs[..n][..k]), fs[..n][k], i) {
        assert fs[..n][..k] == fs[..k];
      }
      CallsGoOn(cfg, disk, es, fs[..n], i, rs);
      assert es + fs == es + fs[..n] + [e];
      RunSnoc(cfg, disk, es + fs[..n], e);
      RunKeeps(cfg, disk, es + fs[..n]);
      FirstStays(cfg, disk, es + fs[..n]);
      InitialReads(cfg, disk, rs);
      if Own(e, i) { DueStep(cfg, s, e, i); } else { OthersStep(cfg, s, e, i); }
    }
    if t.calls[i].stage.Done? && t.calls[i].request.Append? {
      assert Succeeded(t.calls[i]);
    }
  }

  // ---------- no state is a dead end ----------

  /** The way a call inside the lock fails and leaves. */
  function FailStep(stage: Stage, i: nat): Event {
    match stage
    case Holding => Load(i, true)
    case Loaded(_) => MakeTemp(i, "", true)
    case Writing(_, _, _, _) => Abort(i, false)
    case Written(_, _, _) => Abort(i, false)
    case _ => Unlock(i)
  }

  lemma {:induction false} FailsOut(cfg: Config, s: State, i: nat)
    requires Inv(cfg, s) && i < |s.calls| && InLock(s.calls[i].stage)
    ensures var t := Step(cfg, s, FailStep(s.calls[i].stage, i));
            && |t.calls| == |s.calls| && t.disk == s.disk
            && if s.calls[i].stage.Leaving? then t.owner.None? else t.calls[i].stage == Leaving(Failed)
  {
    hide Inv, Parse, Content;
    CallFacts(cfg, s, i);
  }

  /** Whatever a call inside the lock is doing, and whatever of it fails, it can leave. */
  lemma {:induction false} LockComesFree(cfg: Config, disk: Disk, es: seq<Event>) returns (fs: seq<Event>)
    requires Faithful(cfg.codec) && ValidDisk(disk) && Settled(disk, cfg.base)
    ensures var s, t := Run(cfg, disk, es), Run(cfg, disk, es + fs);
            t.owner.None? && |t.calls| == |s.calls| && t.disk == s.disk
    decreases var s := Run(cfg, disk, es); if s.owner.None? then 0 else if StageOf(s, s.owner.value).Leaving? then 1 else 2
  {
    hide Run, Step, DiskOk, LogOk, CallsOk;
    RunKeeps(cfg, disk, es);
    var s := Run(cfg, disk, es);
    if s.owner.None? {
      fs := [];
      assert es + fs == es;
    } else {
      var i := s.owner.value;
      var e := FailStep(s.calls[i].stage, i);
      FailsOut(cfg, s, i);
      RunSnoc(cfg, disk, es, e);
      RunKeeps(cfg, disk, es + [e]);
      var rest := LockComesFree(cfg, disk, es + [e]);
      fs := [e] + rest;
      assert es + fs == es + [e] + rest;
    }
  }

  lemma {:induction false} LongerThanAll(names: set<string>) returns (n: nat)
    ensures forall name :: name in names ==> |name| < n
    decreases names
  {
    n := 0;
    if names != {} {
      var name :| name in names;
      var m := LongerThanAll(names - {name});
      n := m + |name| + 1;
    }
  }

  lemma {:induction false} FreeTemp(base: string, names: set<string>) returns (temp: string)
    ensures IsTemp(base, temp) && temp !in names
  {
    var n := LongerThanAll(names);
    temp := TempName(base, seq(n, _ => 'x'));
  }

  lemma {:induction false} SomethingDue(cfg: Config, s: State, i: nat) returns (e: Event)
    requires i < |s.calls| && !s.calls[i].stage.Done? && (s.calls[i].stage.Waiting? ==> s.owner.None?)
    ensures Due(cfg, s, e, i)
  {
    hide IsTemp;
    var temp := FreeTemp(cfg.base, s.disk.names.Keys);
    e := match s.calls[i].stage
      case Waiting => Lock(i)
      case Holding => Load(i, false)
      case Loaded(_) => MakeTemp(i, temp, false)
      case Writing(_, _, _, rest) => if rest == [] then Flush(i) else Write(i, |rest|)
      case Written(_, _, _) => Commit(i)
      case Leaving(_) => Unlock(i)
      case Done(_) => Unlock(i);
  }

  lemma {:induction false} CallSucceeds(cfg: Config, disk: Disk, es: seq<Event>, i: nat, rs: seq<Record>) returns (fs: seq<Event>)
    requires Faithful(cfg.codec) && ValidDisk(disk) && Settled(disk, cfg.base) && Reads(cfg.codec, disk, cfg.base, rs)
    requires var s := Run(cfg, disk, es); i < |s.calls| && Goes(s.calls[i]) && (s.calls[i].stage.Waiting? ==> s.owner.None?)
    ensures var s, t := Run(cfg, disk, es), Run(cfg, disk, es + fs);
            i < |t.calls| && t.calls[i].request == s.calls[i].request && t.calls[i].stage.Done? && Goes(t.calls[i])
    decreases Rank(Run(cfg, disk, es).calls[i].stage).0, Rank(Run(cfg, disk, es).calls[i].stage).1
  {
    hide Run, Step, Due, DiskOk, LockOk, LogOk, CallsOk, Reads;
    var s := Run(cfg, disk, es);
    if s.calls[i].stage.Done? {
      fs := [];
      assert es + fs == es;
    } else {
      RunKeeps(cfg, disk, es);
      FirstStays(cfg, disk, es);
      InitialReads(cfg, disk, rs);
      var e := SomethingDue(cfg, s, i);
      DueStep(cfg, s, e, i);
      NeverBack(cfg, s, e, i);
      RunSnoc(cfg, disk, es, e);
      var rest := CallSucceeds(cfg, disk, es + [e], i, rs);
      fs := [e] + rest;
      assert es + fs == es + [e] + rest;
    }
  }

  lemma {:induction false} NeverBack(cfg: Config, s: State, e: Event, i: nat)
    requires Due(cfg, s, e, i)
    ensures i < |Step(cfg, s, e).calls| && !Step(cfg, s, e).calls[i].stage.Waiting?
  {
    hide Create, AppendTo, Sync, Rename, IsTemp, Parse, Content;
  }

  /**
   From every state of every run on a manifest that can be read, whatever the calls under way are doing, one
   more `Append` can be made and succeed, and then its record is in the manifest.
   */
  lemma {:induction false} AppendCanSucceed(cfg: Config, disk: Disk, es: seq<Event>, rs: seq<Record>, rec: Record) returns (fs: seq<Event>)
    requires Faithful(cfg.codec) && ValidDisk(disk) && Settled(disk, cfg.base) && Reads(cfg.codec, disk, cfg.base, rs)
    ensures var i, t := |Run(cfg, disk, es).calls|, Run(cfg, disk, es + fs);
            && i < |t.calls| && t.calls[i] == Call(Append(rec), Done(Appended))
            && Reads(cfg.codec, t.disk, cfg.base, rs + Recs(t.log)) && (i, rec) in t.log
  {
    hide Run, Reads;
    var i := |Run(cfg, disk, es).calls|;
    var free := LockComesFree(cfg, disk, es);
    RunSnoc(cfg, disk, es + free, Arrive(Append(rec)));
    var rest := CallSucceeds(cfg, disk, es + free + [Arrive(Append(rec))], i, rs);
    fs := free + [Arrive(Append(rec))] + rest;
    assert es + fs == es + free + [Arrive(Append(rec))] + rest;
    NoAppendLost(cfg, disk, es + fs, rs);
    var t := Run(cfg, disk, es + fs);
    assert Succeeded(t.calls[i]);
    var k :| 0 <= k < |t.log| && t.log[k].0 == i;
    assert Committed(t, t.log[k]);
  }

  lemma {:induction false} DoneStays(cfg: Config, s: State, e: Event, i: nat)
    requires i < |s.calls| && s.calls[i].stage.Done?
    ensures i < |Step(cfg, s, e).calls| && Step(cfg, s, e).calls[i] == s.calls[i]
  {
    hide Create, AppendTo, Sync, Rename, Remove, IsTemp, Parse, Content;
  }

  /** A call whose context has ended before it takes the lock fails for good, and commits nothing. */
  lemma {:induction false} CancelledFails(cfg: Config, disk: Disk, es: seq<Event>, fs: seq<Event>, i: nat)
    requires Faithful(cfg.codec) && ValidDisk(disk) && Settled(disk, cfg.base) && StageOf(Run(cfg, disk, es), i).Waiting?
    ensures var t := Run(cfg, disk, es + [Cancel(i)] + fs); i < |t.calls| && t.calls[i].stage == Done(Failed) && !Logged(t, i)
    decreases |fs|
  {
    hide Step, DiskOk, LockOk, CallsOk;
    if fs == [] {
      assert es + [Cancel(i)] + fs == es + [Cancel(i)];
      RunSnoc(cfg, disk, es, Cancel(i));
      CancelEnds(cfg, Run(cfg, disk, es), i);
    } else {
      var n := |fs| - 1;
      CancelledFails(cfg, disk, es, fs[..n], i);
      assert es + [Cancel(i)] + fs == es + [Cancel(i)] + fs[..n] + [fs[n]];
      RunSnoc(cfg, disk, es + [Cancel(i)] + fs[..n], fs[n]);
      DoneStays(cfg, Run(cfg, disk, es + [Cancel(i)] + fs[..n]), fs[n], i);
    }
    var t := Run(cfg, disk, es + [Cancel(i)] + fs);
    RunKeeps(cfg, disk, es + [Cancel(i)] + fs);
    forall k | 0 <= k < |t.log| ensures t.log[k].0 != i {
      assert Committed(t, t.log[k]);
    }
  }

  lemma {:induction false} CancelEnds(cfg: Config, s: State, i: nat)
    requires StageOf(s, i).Waiting?
    ensures i < |Step(cfg, s, Cancel(i)).calls| && StageOf(Step(cfg, s, Cancel(i)), i) == Done(Failed)
  {
  }
}
