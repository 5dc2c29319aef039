/**
 The artifact manifest (internal/artifact/json_store.go): any number of `Append` and `List` calls of
 one process interleave over one mutex and one atomically rewritten file. Each event is one lock,
 unlock or system call; an event that is not possible in a state changes nothing, so a run is any
 sequence of events.
 */
module Manifest {
  import opened Basics
  import opened AtomicFile

  // ---------- the file's format ----------

  datatype Record = Record(
    id: string, kind: string, sensitivity: string, source: string, command: string, path: string, cacheKind: string,
    pid: int, sizeBytes: int, createdAt: int, metadata: map<string, string>)

  /** JSON encoding and decoding of a record list, with the final newline. */
  datatype Codec = Codec(encode: seq<Record> -> Bytes, decode: Bytes -> Option<seq<Record>>)

  ghost predicate Faithful(codec: Codec) {
    forall rs :: codec.decode(codec.encode(rs)) == Some(rs) && codec.encode(rs) != []
  }

  /** `readLocked`: a missing or empty file is an empty manifest; None is a decoding error. */
  function Parse(codec: Codec, content: Option<Bytes>): Option<seq<Record>> {
    if content.None? || content.value == [] then Some([]) else codec.decode(content.value)
  }

  /** The records a disk holds: none when the file is missing or empty, otherwise what its bytes decode to. */
  ghost predicate Reads(codec: Codec, d: Disk, base: string, rs: seq<Record>) {
    if base !in d.names then rs == []
    else
      && d.names[base] in d.data
      && var bytes := d.data[d.names[base]];
         if bytes == [] then rs == [] else codec.decode(bytes) == Some(rs)
  }

  /** The file holds bytes that do not decode. */
  ghost predicate Malformed(codec: Codec, d: Disk, base: string) {
    base in d.names && d.names[base] in d.data && d.data[d.names[base]] != [] && codec.decode(d.data[d.names[base]]) == None
  }

  lemma {:induction false} ParseReads(codec: Codec, d: Disk, base: string)
    requires base in d.names ==> d.names[base] in d.data
    ensures forall rs :: Parse(codec, Content(d, base)) == Some(rs) <==> Reads(codec, d, base, rs)
    ensures Parse(codec, Content(d, base)) == None <==> Malformed(codec, d, base)
  {
  }

  // ---------- calls and their progress ----------

  datatype Request = Append(rec: Record) | List

  datatype Outcome = Failed | Appended | Records(records: seq<Record>)

  datatype Stage =
    | Waiting
    | Holding
    | Loaded(records: seq<Record>)
    | Writing(records: seq<Record>, temp: string, inode: nat, rest: Bytes)
    | Written(records: seq<Record>, temp: string, inode: nat)
    | Leaving(outcome: Outcome)
    | Done(outcome: Outcome)

  datatype Call = Call(request: Request, stage: Stage)

  /**
   `disk` is the last state of `trace`, which starts with `first`; `log` lists the calls whose rename
   has happened, with their records.
   */
  datatype State = State(
    first: Disk, trace: seq<Disk>, disk: Disk,
    owner: Option<nat>, calls: seq<Call>, log: seq<(nat, Record)>)

  datatype Config = Config(base: string, codec: Codec)

  datatype Event =
    | Arrive(request: Request)
    | Cancel(i: nat)
    | Lock(i: nat)
    | Load(i: nat, readFails: bool)
    | MakeTemp(i: nat, temp: string, fails: bool)
    | Write(i: nat, n: nat)
    | Flush(i: nat)
    | Commit(i: nat)
    | Abort(i: nat, removed: bool)
    | Unlock(i: nat)

  function Move(s: State, i: nat, stage: Stage): State {
    if i < |s.calls| then s.(calls := s.calls[i := s.calls[i].(stage := stage)]) else s
  }

  function Put(s: State, d: Disk): State {
    s.(trace := s.trace + [d], disk := d)
  }

  function StageOf(s: State, i: nat): Stage {
    if i < |s.calls| then s.calls[i].stage else Done(Failed)
  }

  /** The context is checked before the lock is taken. */
  function DoCancel(s: State, i: nat): State {
    if StageOf(s, i).Waiting? then Move(s, i, Done(Failed)) else s
  }

  function DoLock(s: State, i: nat): State {
    if StageOf(s, i).Waiting? && s.owner.None? then Move(s, i, Holding).(owner := Some(i)) else s
  }

  /** `readLocked`, which may fail to read the file or to decode it. */
  function DoLoad(cfg: Config, s: State, i: nat, readFails: bool): State {
    var read := Parse(cfg.codec, Content(s.disk, cfg.base));
    if !StageOf(s, i).Holding? then s
    else if readFails || read.None? then Move(s, i, Leaving(Failed))
    else if s.calls[i].request.List? then Move(s, i, Leaving(Records(read.value)))
    else Move(s, i, Loaded(read.value))
  }

  /** `writeLocked` up to the temp file; making the directory, encoding or creating may fail. */
  function DoMakeTemp(cfg: Config, s: State, i: nat, temp: string, fails: bool): State {
    var stage := StageOf(s, i);
    if !stage.Loaded? || s.calls[i].request.List? then s
    else if fails || !IsTemp(cfg.base, temp) || temp in s.disk.names then Move(s, i, Leaving(Failed))
    else
      var payload := cfg.codec.encode(stage.records + [s.calls[i].request.rec]);
      Put(Move(s, i, Writing(stage.records, temp, s.disk.next, payload)), Create(s.disk, temp))
  }

  function DoWrite(s: State, i: nat, n: nat): State {
    var stage := StageOf(s, i);
    if stage.Writing? && n <= |stage.rest| then
      Put(Move(s, i, stage.(rest := stage.rest[n..])), AppendTo(s.disk, stage.inode, stage.rest[..n]))
    else s
  }

  function DoFlush(s: State, i: nat): State {
    var stage := StageOf(s, i);
    if stage.Writing? && stage.rest == [] then
      Put(Move(s, i, Written(stage.records, stage.temp, stage.inode)), Sync(s.disk, stage.inode))
    else s
  }

  /** The rename. */
  function DoCommit(cfg: Config, s: State, i: nat): State {
    var stage := StageOf(s, i);
    if stage.Written? && s.calls[i].request.Append? then
      Put(Move(s, i, Leaving(Appended)), Rename(s.disk, stage.temp, cfg.base))
        .(log := s.log + [(i, s.calls[i].request.rec)])
    else s
  }

  /** Any system call on the temp file fails; the temp file may or may not go away. */
  function DoAbort(s: State, i: nat, removed: bool): State {
    var stage := StageOf(s, i);
    if !stage.Writing? && !stage.Written? then s
    else if removed then Put(Move(s, i, Leaving(Failed)), Remove(s.disk, stage.temp))
    else Move(s, i, Leaving(Failed))
  }

  function DoUnlock(s: State, i: nat): State {
    var stage := StageOf(s, i);
    if stage.Leaving? then Move(s, i, Done(stage.outcome)).(owner := None) else s
  }

  function Step(cfg: Config, s: State, e: Event): State {
    match e
    case Arrive(request) => s.(calls := s.calls + [Call(request, Waiting)])
    case Cancel(i) => DoCancel(s, i)
    case Lock(i) => DoLock(s, i)
    case Load(i, readFails) => DoLoad(cfg, s, i, readFails)
    case MakeTemp(i, temp, fails) => DoMakeTemp(cfg, s, i, temp, fails)
    case Write(i, n) => DoWrite(s, i, n)
    case Flush(i) => DoFlush(s, i)
    case Commit(i) => DoCommit(cfg, s, i)
    case Abort(i, removed) => DoAbort(s, i, removed)
    case Unlock(i) => DoUnlock(s, i)
  }

  function Start(disk: Disk): State {
    State(disk, [disk], disk, None, [], [])
  }

  function Run(cfg: Config, disk: Disk, es: seq<Event>): State {
    if es == [] then Start(disk) else Step(cfg, Run(cfg, disk, es[..|es| - 1]), es[|es| - 1])
  }

  // ---------- the invariant ----------

  function Recs(log: seq<(nat, Record)>): seq<Record> {
    if log == [] then [] else Recs(log[..|log| - 1]) + [log[|log| - 1].1]
  }

  /** The manifest after the first `n` commits, when the file was readable at the start. */
  ghost function After(cfg: Config, first: Disk, log: seq<(nat, Record)>, n: nat): Option<seq<Record>>
    requires n <= |log|
  {
    var read := Parse(cfg.codec, Content(first, cfg.base));
    if read.None? then None else Some(read.value + Recs(log[..n]))
  }

  /** A state of the disk shows the manifest after `n` commits. */
  ghost predicate Shows(cfg: Config, first: Disk, log: seq<(nat, Record)>, d: Disk, n: nat) {
    && n <= |log|
    && ValidDisk(d) && Settled(d, cfg.base)
    && Parse(cfg.codec, Content(d, cfg.base)) == After(cfg, first, log, n)
    && (n == 0 ==> Content(d, cfg.base) == Content(first, cfg.base))
  }

  ghost predicate ShowsSome(cfg: Config, first: Disk, log: seq<(nat, Record)>, d: Disk) {
    exists n :: Shows(cfg, first, log, d, n)
  }

  ghost predicate DiskOk(cfg: Config, s: State) {
    && |s.trace| > 0 && s.trace[0] == s.first && s.trace[|s.trace| - 1] == s.disk
    && Lasting(s.trace)
    && (forall k :: 0 <= k < |s.trace| ==> ShowsSome(cfg, s.first, s.log, s.trace[k]))
    && Shows(cfg, s.first, s.log, s.disk, |s.log|)
    && (Parse(cfg.codec, Content(s.first, cfg.base)).None? ==> s.log == [])
  }

  predicate InLock(stage: Stage) {
    !stage.Waiting? && !stage.Done?
  }

  ghost predicate LockOk(s: State) {
    && (s.owner.Some? ==> s.owner.value < |s.calls|)
    && forall i :: 0 <= i < |s.calls| ==> (InLock(s.calls[i].stage) <==> s.owner == Some(i))
  }

  predicate Succeeded(c: Call) {
    (c.stage.Leaving? || c.stage.Done?) && c.stage.outcome.Appended?
  }

  ghost predicate LogOk(s: State) {
    && (forall k :: 0 <= k < |s.log| ==> Committed(s, s.log[k]))
    && (forall j, k :: 0 <= j < k < |s.log| ==> s.log[j].0 != s.log[k].0)
    && (forall i :: 0 <= i < |s.calls| && Succeeded(s.calls[i]) ==> Logged(s, i))
  }

  ghost predicate Committed(s: State, entry: (nat, Record)) {
    && entry.0 < |s.calls| && Succeeded(s.calls[entry.0])
    && s.calls[entry.0].request == Append(entry.1)
  }

  ghost predicate Logged(s: State, i: nat) {
    exists k :: 0 <= k < |s.log| && s.log[k].0 == i
  }

  /** The temp file of a call that is writing. */
  ghost predicate Temp(d: Disk, base: string, temp: string, inode: nat) {
    && IsTemp(base, temp) && temp in d.names && d.names[temp] == inode && inode in d.data
    && (base in d.names ==> d.names[base] != inode)
  }

  ghost predicate StageOk(cfg: Config, s: State, c: Call) {
    match c.stage
    case Loaded(rs) => c.request.Append? && After(cfg, s.first, s.log, |s.log|) == Some(rs)
    case Writing(rs, temp, inode, rest) =>
      && c.request.Append? && After(cfg, s.first, s.log, |s.log|) == Some(rs)
      && Temp(s.disk, cfg.base, temp, inode) && inode !in s.disk.synced
      && s.disk.data[inode] + rest == cfg.codec.encode(rs + [c.request.rec])
    case Written(rs, temp, inode) =>
      && c.request.Append? && After(cfg, s.first, s.log, |s.log|) == Some(rs)
      && Temp(s.disk, cfg.base, temp, inode) && inode in s.disk.synced
      && s.disk.data[inode] == cfg.codec.encode(rs + [c.request.rec])
    case Leaving(Records(rs)) => Listed(cfg, s.first, s.log, rs)
    case Done(Records(rs)) => Listed(cfg, s.first, s.log, rs)
    case _ => true
  }

  /** A listing is the manifest after some number of the commits so far. */
  ghost predicate Listed(cfg: Config, first: Disk, log: seq<(nat, Record)>, rs: seq<Record>) {
    exists n: nat :: n <= |log| && After(cfg, first, log, n) == Some(rs)
  }

  ghost predicate CallsOk(cfg: Config, s: State) {
    forall i :: 0 <= i < |s.calls| ==> StageOk(cfg, s, s.calls[i])
  }

  ghost predicate Inv(cfg: Config, s: State) {
    && Faithful(cfg.codec)
    && DiskOk(cfg, s)
    && LockOk(s)
    && LogOk(s)
    && CallsOk(cfg, s)
  }

  // ---------- one call on its own ----------

  /**
   The store as an object: what holds the mutex runs alone. `initial` are the records found at the
   start, None if the file does not decode; `appended` those of the appends that have succeeded.
   */
  class JsonStore {
    const volume: Volume
    const base: string
    const codec: Codec
    ghost const initial: Option<seq<Record>>
    ghost var appended: seq<Record>

    ghost function Stored(): Option<seq<Record>>
      reads volume
    {
      Parse(codec, Content(volume.disk, base))
    }

    ghost predicate Valid()
      reads this, volume
    {
      && Faithful(codec) && volume.Valid()
      && Stored() == (if initial.Some? then Some(initial.value + appended) else None)
    }

    constructor (v: Volume, b: string, c: Codec)
      requires Faithful(c) && v.Valid()
      ensures Valid() && volume == v && base == b && codec == c && appended == []
      ensures forall rs :: initial == Some(rs) <==> Reads(c, v.disk, b, rs)
      ensures initial == None <==> Malformed(c, v.disk, b)
    {
      volume, base, codec := v, b, c;
      initial, appended := Parse(c, Content(v.disk, b)), [];
      new;
      ParseReads(c, v.disk, b);
      assert initial.Some? ==> initial.value + [] == initial.value;
    }

    /** `readLocked`; None is an error. */
    method ReadLocked(fails: bool) returns (records: Option<seq<Record>>)
      ensures records == if fails then None else Stored()
    {
      records := if fails then None else Parse(codec, Content(volume.disk, base));
    }

    /** `List`: the records found at the start and all that have been appended since, in order. */
    method List(cancelled: bool, readFails: bool) returns (records: Option<seq<Record>>)
      requires Valid()
      ensures records == if cancelled || readFails || initial.None? then None else Some(initial.value + appended)
    {
      if cancelled {
        return None;
      }
      records := ReadLocked(readFails);
    }

    /**
     `Append`: on success the record is last and nothing else changed; on any error the file is as
     it was; and no state in between shows anything else. `writeFails` is an error before the temp
     file: making the directory or encoding.
     */
    method Append(rec: Record, cancelled: bool, readFails: bool, writeFails: bool, random: string, faults: Faults) returns (ok: bool)
      requires Valid()
      modifies volume, this`appended
      ensures Valid() && old(volume.trace) <= volume.trace
      ensures appended == if ok then old(appended) + [rec] else old(appended)
      ensures ok ==> old(Stored()).Some? && Stored() == Some(old(Stored()).value + [rec])
      ensures ok ==> initial.Some? && Reads(codec, volume.disk, base, initial.value + appended)
      ensures !ok ==> Content(volume.disk, base) == old(Content(volume.disk, base))
      ensures ok <==> && !cancelled && !readFails && !writeFails && initial.Some? && Harmless(faults)
                      && TempName(base, random) !in old(volume.disk).names
      ensures forall k :: |old(volume.trace)| <= k < |volume.trace| ==>
                Parse(codec, Content(volume.trace[k], base)) == old(Stored())
                || (initial.Some? && Parse(codec, Content(volume.trace[k], base)) == Some(initial.value + old(appended) + [rec]))
    {
      if cancelled {
        return false;
      }
      var records := ReadLocked(readFails);
      if records.None? || writeFails {
        return false;
      }
      ghost var from := |volume.trace| - 1;
      var payload := codec.encode(records.value + [rec]);
      ok := volume.WriteAtomic(base, payload, random, faults);
      forall k | from < k < |volume.trace|
        ensures Parse(codec, Content(volume.trace[k], base)) == old(Stored())
                || Parse(codec, Content(volume.trace[k], base)) == Some(records.value + [rec])
      {
        assert OldOrNew(volume.trace[k], old(volume.disk), base, payload);
      }
      if ok {
        appended := appended + [rec];
        assert initial.value + old(appended) + [rec] == initial.value + appended;
        ParseReads(codec, volume.disk, base);
      }
    }
  }

  /** The first `Append` where there is no manifest, or an empty file: it succeeds, and `List` gives that record alone. */
  method FirstAppend(volume: Volume, base: string, codec: Codec, rec: Record, random: string, faults: Faults)
    returns (ok: bool, records: Option<seq<Record>>)
    requires Faithful(codec) && volume.Valid() && Harmless(faults) && TempName(base, random) !in volume.disk.names
    requires base in volume.disk.names ==> volume.disk.data[volume.disk.names[base]] == []
    modifies volume
    ensures ok && records == Some([rec])
  {
    var store := new JsonStore(volume, base, codec);
    assert Reads(codec, volume.disk, base, []);
    ok := store.Append(rec, false, false, false, random, faults);
    records := store.List(false, false);
    assert [] + [] + [rec] == [rec];
  }
}
