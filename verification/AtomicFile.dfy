/**
 Crash-atomic file replacement (internal/fsutil/atomic.go): temp file, write, fsync, close, rename.
 A file name leads to an inode; a crash keeps the bytes of synced inodes only, and may undo any
 recent change of names.
 */
module AtomicFile {
  import opened Basics

  // ---------- one directory on disk ----------

  datatype Disk = Disk(names: map<string, nat>, data: map<nat, Bytes>, synced: set<nat>, next: nat)

  ghost predicate ValidDisk(d: Disk) {
    && (forall n :: n in d.names ==> d.names[n] in d.data)
    && (forall i :: i in d.data ==> i < d.next)
    && d.synced <= d.data.Keys
  }

  /** What reading a file gives; None when it does not exist. */
  function Content(d: Disk, name: string): Option<Bytes> {
    if name in d.names && d.names[name] in d.data then Some(d.data[d.names[name]]) else None
  }

  /** The file is missing or its bytes have been flushed. */
  predicate Settled(d: Disk, name: string) {
    name in d.names ==> d.names[name] in d.synced
  }

  function Create(d: Disk, name: string): Disk {
    Disk(d.names[name := d.next], d.data[d.next := []], d.synced, d.next + 1)
  }

  function AppendTo(d: Disk, inode: nat, chunk: Bytes): Disk {
    if inode in d.data then d.(data := d.data[inode := d.data[inode] + chunk], synced := d.synced - {inode}) else d
  }

  function Sync(d: Disk, inode: nat): Disk {
    if inode in d.data then d.(synced := d.synced + {inode}) else d
  }

  function Remove(d: Disk, name: string): Disk {
    d.(names := d.names - {name})
  }

  /** rename(2): atomic, and over an existing target. */
  function Rename(d: Disk, from: string, to: string): Disk {
    if from in d.names then d.(names := (d.names - {from})[to := d.names[from]]) else d
  }

  const MARK := ".tmp-"

  /** The name `CreateTemp` makes from a random part. */
  function TempName(base: string, random: string): (t: string)
    ensures IsTemp(base, t)
  {
    "." + base + MARK + random
  }

  /** A name `CreateTemp` may choose for a target. */
  predicate IsTemp(base: string, t: string) {
    var prefix := "." + base + MARK;
    prefix <= t
  }

  /** A temp name is never the target's own, even when the target does not exist yet. */
  lemma {:induction false} TempIsNotTarget(base: string, t: string)
    requires IsTemp(base, t)
    ensures t != base
  {
    assert |t| >= |"." + base + MARK|;
  }

  // ---------- crashes ----------

  /** Flushed bytes stay as they are. */
  ghost predicate Keeps(d: Disk, e: Disk) {
    && d.synced <= e.synced
    && forall i :: i in d.synced ==> i in d.data && i in e.data && e.data[i] == d.data[i]
  }

  ghost predicate Lasting(trace: seq<Disk>) {
    forall i, j :: 0 <= i <= j < |trace| ==> Keeps(trace[i], trace[j])
  }

  /**
   `c` is what a crash at `now` can leave when the names on disk are still those of `earlier`: flushed
   bytes survive, anything may stand in the other inodes.
   */
  ghost predicate CrashOf(earlier: Disk, now: Disk, c: Disk) {
    && c.names == earlier.names
    && forall i :: i in now.synced && i in now.data ==> i in c.data && c.data[i] == now.data[i]
  }

  lemma {:induction false} CrashKeepsSettled(trace: seq<Disk>, j: nat, k: nat, c: Disk, name: string)
    requires j <= k < |trace| && Lasting(trace) && ValidDisk(trace[j])
    requires Settled(trace[j], name) && CrashOf(trace[j], trace[k], c)
    ensures Content(c, name) == Content(trace[j], name)
  {
    assert Keeps(trace[j], trace[k]);
  }

  lemma {:induction false} LastingGrows(trace: seq<Disk>, d: Disk)
    requires |trace| > 0 && Lasting(trace) && ValidDisk(d) && Keeps(trace[|trace| - 1], d)
    ensures Lasting(trace + [d])
  {
    var longer := trace + [d];
    forall i, j | 0 <= i <= j < |longer| ensures Keeps(longer[i], longer[j]) {
      if j < |trace| {
        assert Keeps(trace[i], trace[j]);
      } else if i < |trace| {
        assert Keeps(trace[i], trace[|trace| - 1]);
      }
    }
  }

  /**
   The flush before the rename decides: with it every crash after the rename shows the new bytes, without it
   a crash can leave any bytes at all.
   */
  lemma {:induction false} FlushDecides(start: Disk, base: string, temp: string, payload: Bytes, garbage: Bytes)
    requires ValidDisk(start) && temp !in start.names && temp != base
    ensures var written := AppendTo(Create(start, temp), start.next, payload);
            var flushed, loose := Rename(Sync(written, start.next), temp, base), Rename(written, temp, base);
            && (forall c :: CrashOf(flushed, flushed, c) ==> Content(c, base) == Some(payload))
            && (exists c :: CrashOf(loose, loose, c) && Content(c, base) == Some(garbage))
  {
    var written := AppendTo(Create(start, temp), start.next, payload);
    var flushed, loose := Rename(Sync(written, start.next), temp, base), Rename(written, temp, base);
    assert [] + payload == payload;
    assert flushed.names[base] == start.next && flushed.data[start.next] == payload && start.next in flushed.synced;
    assert loose.names[base] == start.next && start.next !in loose.synced;
    var c := loose.(data := loose.data[start.next := garbage]);
    assert CrashOf(loose, loose, c) && Content(c, base) == Some(garbage);
  }

  // ---------- the writer ----------

  /** `d` shows the file as it was at `start` or with the new bytes, and flushed if it was. */
  ghost predicate OldOrNew(d: Disk, start: Disk, base: string, payload: Bytes) {
    && ValidDisk(d)
    && (Settled(start, base) ==> Settled(d, base))
    && (Content(d, base) == Content(start, base) || Content(d, base) == Some(payload))
  }

  /** `d` is `start` with one more file, `temp`, whose inode is new. */
  ghost predicate WithTemp(start: Disk, d: Disk, base: string, temp: string, inode: nat) {
    && ValidDisk(d)
    && IsTemp(base, temp) && temp !in start.names && inode !in start.data
    && d.names == start.names[temp := inode]
    && inode in d.data
    && (forall i :: i in start.data ==> i in d.data && d.data[i] == start.data[i])
    && d.synced - {inode} == start.synced
  }

  /** Only the target and one temp file may have changed. */
  ghost predicate OnlyTarget(start: Disk, d: Disk, base: string, temp: string) {
    && IsTemp(base, temp)
    && (forall n :: n != base && n in start.names ==> n in d.names && Content(d, n) == Content(start, n))
    && d.names.Keys <= start.names.Keys + {base, temp}
  }

  lemma {:induction false} Created(start: Disk, base: string, temp: string)
    requires ValidDisk(start) && IsTemp(base, temp) && temp !in start.names
    ensures WithTemp(start, Create(start, temp), base, temp, start.next)
    ensures Keeps(start, Create(start, temp))
  {
  }

  lemma {:induction false} Appended(start: Disk, d: Disk, base: string, temp: string, inode: nat, chunk: Bytes)
    requires ValidDisk(start) && WithTemp(start, d, base, temp, inode) && inode !in d.synced
    ensures WithTemp(start, AppendTo(d, inode, chunk), base, temp, inode)
    ensures Keeps(d, AppendTo(d, inode, chunk))
  {
  }

  lemma {:induction false} Flushed(start: Disk, d: Disk, base: string, temp: string, inode: nat)
    requires ValidDisk(start) && WithTemp(start, d, base, temp, inode) && inode !in d.synced
    ensures WithTemp(start, Sync(d, inode), base, temp, inode)
    ensures Keeps(d, Sync(d, inode))
  {
  }

  /** Until the rename, the target is untouched. */
  lemma {:induction false} TargetUntouched(start: Disk, d: Disk, base: string, temp: string, inode: nat, payload: Bytes)
    requires ValidDisk(start) && WithTemp(start, d, base, temp, inode)
    ensures Content(d, base) == Content(start, base)
    ensures OldOrNew(d, start, base, payload) && OnlyTarget(start, d, base, temp)
  {
    TempIsNotTarget(base, temp);
  }

  lemma {:induction false} Discarded(start: Disk, d: Disk, base: string, temp: string, inode: nat, payload: Bytes)
    requires ValidDisk(start) && WithTemp(start, d, base, temp, inode)
    ensures Remove(d, temp).names == start.names && Content(Remove(d, temp), base) == Content(start, base)
    ensures OldOrNew(Remove(d, temp), start, base, payload) && OnlyTarget(start, Remove(d, temp), base, temp)
    ensures Keeps(d, Remove(d, temp))
  {
    TempIsNotTarget(base, temp);
  }

  lemma {:induction false} Renamed(start: Disk, d: Disk, base: string, temp: string, inode: nat, payload: Bytes)
    requires ValidDisk(start) && WithTemp(start, d, base, temp, inode)
    requires inode in d.synced && d.data[inode] == payload
    ensures var e := Rename(d, temp, base);
            && e.names == start.names[base := inode] && Content(e, base) == Some(payload)
            && OldOrNew(e, start, base, payload) && OnlyTarget(start, e, base, temp) && Keeps(d, e)
  {
    TempIsNotTarget(base, temp);
    assert (d.names - {temp})[base := inode] == start.names[base := inode];
  }

  /** Which system calls fail. */
  datatype Faults = Faults(create: bool, chmod: bool, write: bool, sync: bool, close: bool, rename: bool, remove: bool)

  predicate Harmless(f: Faults) {
    !f.create && !f.chmod && !f.write && !f.sync && !f.close && !f.rename
  }

  /** The disk, with every state it has passed through. */
  class Volume {
    var disk: Disk
    ghost var trace: seq<Disk>

    ghost predicate Valid()
      reads this
    {
      |trace| > 0 && trace[|trace| - 1] == disk && ValidDisk(disk) && Lasting(trace)
    }

    /** All states since number `from` show the file as at `start` or complete. */
    ghost predicate Sound(from: nat, start: Disk, base: string, payload: Bytes)
      reads this
    {
      from <= |trace| && forall k :: from <= k < |trace| ==> OldOrNew(trace[k], start, base, payload)
    }

    constructor (d: Disk)
      requires ValidDisk(d)
      ensures Valid() && disk == d && trace == [d]
    {
      disk := d;
      trace := [d];
    }

    /** One disk operation. */
    method Do(d: Disk, ghost from: nat, ghost start: Disk, ghost base: string, ghost payload: Bytes)
      requires Valid() && ValidDisk(d) && Keeps(disk, d)
      requires Sound(from, start, base, payload) && OldOrNew(d, start, base, payload)
      modifies this
      ensures Valid() && disk == d && trace == old(trace) + [d]
      ensures Sound(from, start, base, payload)
    {
      LastingGrows(trace, d);
      disk := d;
      trace := trace + [d];
    }

    /** The payload callback: the bytes arrive in pieces of any size, and it may fail after any piece. */
    method Write(inode: nat, payload: Bytes, fails: bool, ghost from: nat, ghost start: Disk, ghost base: string, ghost temp: string)
      returns (ok: bool)
      requires Valid() && ValidDisk(start) && Sound(from, start, base, payload)
      requires WithTemp(start, disk, base, temp, inode) && inode !in disk.synced && disk.data[inode] == []
      modifies this
      ensures Valid() && old(trace) <= trace && Sound(from, start, base, payload)
      ensures WithTemp(start, disk, base, temp, inode) && inode !in disk.synced
      ensures ok <==> !fails
      ensures ok ==> disk.data[inode] == payload
    {
      var done := 0;
      while done < |payload|
        invariant 0 <= done <= |payload|
        invariant Valid() && old(trace) <= trace && Sound(from, start, base, payload)
        invariant WithTemp(start, disk, base, temp, inode) && inode !in disk.synced
        invariant disk.data[inode] == payload[..done]
      {
        var giveUp: bool := *;
        if fails && giveUp {
          return false;
        }
        var n :| 0 < n <= |payload| - done;
        assert payload[..done] + payload[done..done + n] == payload[..done + n];
        var next := AppendTo(disk, inode, payload[done..done + n]);
        Appended(start, disk, base, temp, inode, payload[done..done + n]);
        TargetUntouched(start, next, base, temp, inode, payload);
        Do(next, from, start, base, payload);
        done := done + n;
      }
      assert payload[..done] == payload;
      return !fails;
    }

    /** `cleanup` and the other `os.Remove(tmpName)` calls; the error of the removal is ignored. */
    method Discard(temp: string, fails: bool, ghost from: nat, ghost start: Disk, ghost base: string, ghost inode: nat, ghost payload: Bytes)
      requires Valid() && ValidDisk(start) && Sound(from, start, base, payload)
      requires WithTemp(start, disk, base, temp, inode)
      modifies this
      ensures Valid() && old(trace) <= trace && Sound(from, start, base, payload)
      ensures Content(disk, base) == Content(start, base) && OnlyTarget(start, disk, base, temp)
    {
      TargetUntouched(start, disk, base, temp, inode, payload);
      Discarded(start, disk, base, temp, inode, payload);
      if !fails {
        Do(Remove(disk, temp), from, start, base, payload);
      }
    }

    /** `os.CreateTemp`: an unused name, or an error. */
    method CreateTemp(base: string, random: string, fails: bool, ghost payload: Bytes)
      returns (ok: bool, temp: string, inode: nat)
      requires Valid()
      modifies this
      ensures Valid() && old(trace) <= trace && Sound(|old(trace)| - 1, old(disk), base, payload)
      ensures temp == TempName(base, random) && (ok <==> !fails && temp !in old(disk).names)
      ensures ok ==> WithTemp(old(disk), disk, base, temp, inode) && inode !in disk.synced && disk.data[inode] == []
      ensures !ok ==> disk == old(disk) && OnlyTarget(disk, disk, base, temp)
    {
      temp, inode := TempName(base, random), disk.next;
      ok := !fails && temp !in disk.names;
      if ok {
        Created(disk, base, temp);
        TargetUntouched(disk, Create(disk, temp), base, temp, inode, payload);
        Do(Create(disk, temp), |trace| - 1, disk, base, payload);
      }
    }

    /** `writeAtomic` up to the rename: the temp file is made, filled and flushed. */
    method Prepare(base: string, payload: Bytes, random: string, faults: Faults) returns (ok: bool, temp: string, inode: nat)
      requires Valid()
      modifies this
      ensures Valid() && old(trace) <= trace && Sound(|old(trace)| - 1, old(disk), base, payload)
      ensures ok <==> !faults.create && !faults.chmod && !faults.write && !faults.sync && temp !in old(disk).names
      ensures temp == TempName(base, random)
      ensures ok ==> WithTemp(old(disk), disk, base, temp, inode) && inode in disk.synced && disk.data[inode] == payload
      ensures !ok ==> Content(disk, base) == Content(old(disk), base) && OnlyTarget(old(disk), disk, base, temp)
    {
      ghost var from, start := |trace| - 1, disk;
      ok, temp, inode := CreateTemp(base, random, faults.create, payload);
      if !ok {
        return;
      }
      if faults.chmod {
        Discard(temp, faults.remove, from, start, base, inode, payload);
        return false, temp, inode;
      }
      ok := Write(inode, payload, faults.write, from, start, base, temp);
      if !ok || faults.sync {
        Discard(temp, faults.remove, from, start, base, inode, payload);
        return false, temp, inode;
      }
      Flushed(start, disk, base, temp, inode);
      TargetUntouched(start, Sync(disk, inode), base, temp, inode, payload);
      Do(Sync(disk, inode), from, start, base, payload);
    }

    /**
     `writeAtomic`; `ok` is the nil error, had exactly when no system call fails. Every state on the way, and
     every crash in one of them, shows the old file or the complete new one; success leaves exactly
     the new file, failure leaves the old one and at most a stray temp file. (A crash can only
     keep an old file whose bytes had reached the disk.)
     */
    method WriteAtomic(base: string, payload: Bytes, random: string, faults: Faults) returns (ok: bool)
      requires Valid()
      modifies this
      ensures Valid() && old(trace) <= trace && Sound(|old(trace)| - 1, old(disk), base, payload)
      ensures Settled(old(disk), base) ==>
                forall j, k, c :: |old(trace)| - 1 <= j <= k < |trace| && CrashOf(trace[j], trace[k], c) ==>
                  Content(c, base) == Content(old(disk), base) || Content(c, base) == Some(payload)
      ensures ok <==> && !faults.create && !faults.chmod && !faults.write && !faults.sync && !faults.close && !faults.rename
                      && TempName(base, random) !in old(disk).names
      ensures Content(disk, base) == if ok then Some(payload) else Content(old(disk), base)
      ensures ok ==> disk.names.Keys == old(disk).names.Keys + {base}
      ensures exists t :: OnlyTarget(old(disk), disk, base, t)
    {
      ghost var from, start := |trace| - 1, disk;
      var temp, inode;
      ok, temp, inode := Prepare(base, payload, random, faults);
      if ok {
        if faults.close || faults.rename {
          Discard(temp, faults.remove, from, start, base, inode, payload);
          ok := false;
        } else {
          Renamed(start, disk, base, temp, inode, payload);
          Do(Rename(disk, temp, base), from, start, base, payload);
        }
      }
      forall j, k, c | Settled(old(disk), base) && |old(trace)| - 1 <= j <= k < |trace| && CrashOf(trace[j], trace[k], c)
        ensures Content(c, base) == Content(old(disk), base) || Content(c, base) == Some(payload)
      {
        CrashKeepsSettled(trace, j, k, c, base);
      }
    }
  }
}
