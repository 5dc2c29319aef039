/**
 The sharded blob store (internal/cache/sharded.go): keys become paths by hex encoding, and the files
 at those paths behave like one map from keys to blobs.
 */
module Sharded {
  import opened Basics

  // ---------- hex ----------

  const DIGITS := "0123456789abcdef"

  predicate IsDigit(c: char) { c in DIGITS }

  /** `hex.EncodeToString` */
  function Hex(key: Bytes): string {
    if key == [] then "" else [DIGITS[key[0] / 16], DIGITS[key[0] % 16]] + Hex(key[1..])
  }

  function Nibble(c: char): (n: int)
    ensures -1 <= n < 16
  {
    if '0' <= c <= '9' then c as int - '0' as int
    else if 'a' <= c <= 'f' then c as int - 'a' as int + 10
    else -1
  }

  lemma {:induction false} NibbleOfDigit(n: int)
    requires 0 <= n < 16
    ensures Nibble(DIGITS[n]) == n
  {
  }

  /** Reads the hex digits back. */
  ghost function Unhex(s: string): Bytes {
    if |s| < 2 || Nibble(s[0]) < 0 || Nibble(s[1]) < 0 then []
    else [Nibble(s[0]) * 16 + Nibble(s[1])] + Unhex(s[2..])
  }

  lemma {:induction false} HexShape(key: Bytes)
    ensures |Hex(key)| == 2 * |key|
    ensures forall i :: 0 <= i < |Hex(key)| ==> IsDigit(Hex(key)[i])
  {
    if key != [] { HexShape(key[1..]); }
  }

  lemma {:induction false} ByteBack(b: Byte)
    ensures Nibble(DIGITS[b / 16]) >= 0 && Nibble(DIGITS[b % 16]) >= 0
    ensures Nibble(DIGITS[b / 16]) * 16 + Nibble(DIGITS[b % 16]) == b
  {
    NibbleOfDigit(b / 16);
    NibbleOfDigit(b % 16);
  }

  lemma {:induction false} HexRoundTrip(key: Bytes)
    ensures Unhex(Hex(key)) == key
  {
    hide Nibble;
    if key != [] {
      var s := Hex(key);
      ByteBack(key[0]);
      assert s[2..] == Hex(key[1..]);
      HexRoundTrip(key[1..]);
      assert [key[0]] + key[1..] == key;
    }
  }

  // ---------- paths ----------

  /** The directory of a blob: the root for a one-byte key, else the shard. */
  function Dir(root: string, key: Bytes): string
    requires |key| > 0
  {
    HexShape(key);
    if |key| == 1 then root else root + "/" + Hex(key)[..2]
  }

  /** `path`; joining drops an empty last element. The empty key has no path. */
  function Path(root: string, key: Bytes): string
    requires |key| > 0
  {
    HexShape(key);
    var hex := Hex(key);
    if |key| == 1 then root + "/" + hex[..2] else root + "/" + hex[..2] + "/" + hex[2..]
  }

  function TempPath(root: string, key: Bytes, random: string): string
    requires |key| > 0
  {
    Dir(root, key) + "/.tmp-" + random
  }

  lemma {:induction false} PathParts(root: string, key: Bytes)
    requires |key| > 0
    ensures var p, hex := Path(root, key), Hex(key);
            && |hex| == 2 * |key| && |p| == |root| + 1 + |hex| + (if |key| == 1 then 0 else 1)
            && p[|root| + 1..|root| + 3] == hex[..2] && IsDigit(p[|root| + 1])
            && (|key| > 1 ==> p[|root| + 4..] == hex[2..] && IsDigit(p[|root| + 4]))
  {
    HexShape(key);
    var p, hex := Path(root, key), Hex(key);
    assert p[|root| + 1] == hex[0];
    if |key| > 1 {
      assert p[|root| + 4] == hex[2];
    }
  }

  /** Different keys have different paths. */
  lemma {:induction false} PathInjective(root: string, a: Bytes, b: Bytes)
    requires |a| > 0 && |b| > 0 && Path(root, a) == Path(root, b)
    ensures a == b
  {
    PathParts(root, a);
    PathParts(root, b);
    assert Hex(a) == Hex(a)[..2] + Hex(a)[2..];
    assert Hex(b) == Hex(b)[..2] + Hex(b)[2..];
    HexRoundTrip(a);
    HexRoundTrip(b);
  }

  lemma {:induction false} TempParts(root: string, key: Bytes, random: string)
    requires |key| > 0
    ensures var t, at := TempPath(root, key, random), |root| + if |key| == 1 then 1 else 4;
            |t| > at && t[at] == '.'
  {
    HexShape(key);
    var dir := Dir(root, key);
    assert (dir + "/.tmp-" + random)[|dir| + 1] == '.';
  }

  /** No temp file ever stands where some key's blob belongs. */
  lemma {:induction false} TempIsNoBlob(root: string, key: Bytes, random: string, other: Bytes)
    requires |key| > 0 && |other| > 0
    ensures TempPath(root, key, random) != Path(root, other)
  {
    hide Path, TempPath, Hex;
    PathParts(root, other);
    TempParts(root, key, random);
    assert !IsDigit('.');
  }

  // ---------- the store ----------

  /** The files hold exactly the map's blobs, each under its own key's path. */
  ghost predicate Represents(root: string, files: map<string, Bytes>, m: map<Bytes, Bytes>) {
    forall key: Bytes :: |key| > 0 ==> Lookup(files, Path(root, key)) == Lookup(m, key)
  }

  /** The path is that of some key's blob. */
  ghost predicate IsBlob(root: string, path: string) {
    exists key: Bytes :: |key| > 0 && Path(root, key) == path
  }

  ghost function KeyAt(root: string, path: string): (key: Bytes)
    requires IsBlob(root, path)
    ensures |key| > 0 && Path(root, key) == path
  {
    var key: Bytes :| |key| > 0 && Path(root, key) == path;
    key
  }

  /** The map that any files hold, whatever else lies beside the blobs. */
  ghost function StoreOf(root: string, files: map<string, Bytes>): map<Bytes, Bytes> {
    map path | path in files && IsBlob(root, path) :: KeyAt(root, path) := files[path]
  }

  lemma {:induction false} FilesRepresent(root: string, files: map<string, Bytes>)
    ensures Represents(root, files, StoreOf(root, files))
  {
    hide Path;
    forall key: Bytes | |key| > 0 ensures Lookup(files, Path(root, key)) == Lookup(StoreOf(root, files), key) {
      var path := Path(root, key);
      if path in files {
        assert IsBlob(root, path);
        PathInjective(root, key, KeyAt(root, path));
      }
    }
  }

  /** Only one key's blob changes, and only when the Put succeeds. */
  ghost predicate PutEffect(root: string, files: map<string, Bytes>, files': map<string, Bytes>, key: Bytes, data: Bytes, ok: bool) {
    forall other: Bytes :: |other| > 0 ==>
      Lookup(files', Path(root, other)) == if ok && other == key then Some(data) else Lookup(files, Path(root, other))
  }

  /** Which system calls of a Put fail; a failed write may have written some bytes. */
  datatype Faults = Faults(mkdir: bool, create: bool, write: Option<nat>, close: bool, rename: bool)

  const NONE := Faults(false, false, None, false, false)

  /** A `Put` on the files is an update of the map they represent. */
  lemma {:induction false} PutRefinesMap(root: string, files: map<string, Bytes>, files': map<string, Bytes>, m: map<Bytes, Bytes>, key: Bytes, data: Bytes, ok: bool)
    requires |key| > 0 && Represents(root, files, m) && PutEffect(root, files, files', key, data, ok)
    ensures Represents(root, files', if ok then m[key := data] else m)
  {
    hide Path;
    forall other: Bytes | |other| > 0
      ensures Lookup(files', Path(root, other)) == Lookup(if ok then m[key := data] else m, other)
    {
      assert Lookup(files, Path(root, other)) == Lookup(m, other);
    }
  }

  /** The store as its callers know it: `contents` is the map that the files represent. */
  class ShardedStore {
    const root: string
    var files: map<string, Bytes>
    ghost var contents: map<Bytes, Bytes>

    ghost predicate Valid()
      reads this
    {
      Represents(root, files, contents)
    }

    constructor (r: string)
      ensures Valid() && root == r && files == map[] && contents == map[]
    {
      root, files, contents := r, map[], map[];
    }

    /** `Put`: succeeds when no system call fails; only this key's blob can change, and only by success. */
    method Put(key: Bytes, data: Bytes, random: string, faults: Faults) returns (ok: bool)
      requires Valid() && |key| > 0
      modifies this
      ensures Valid() && contents == if ok then old(contents)[key := data] else old(contents)
      ensures PutEffect(root, old(files), files, key, data, ok)
      ensures ok <==> faults == NONE && TempPath(root, key, random) !in old(files)
    {
      hide Path, TempPath, Hex;
      ok := PutFile(key, data, random, faults);
      PutRefinesMap(root, old(files), files, contents, key, data, ok);
      if ok {
        contents := contents[key := data];
      }
    }

    method PutFile(key: Bytes, data: Bytes, random: string, faults: Faults) returns (ok: bool)
      requires |key| > 0
      modifies this`files
      ensures PutEffect(root, old(files), files, key, data, ok)
      ensures ok <==> faults == NONE && TempPath(root, key, random) !in old(files)
    {
      hide Path, TempPath, Hex;
      var temp := TempPath(root, key, random);
      if faults.mkdir || faults.create || temp in files {
        return false;
      }
      forall other: Bytes | |other| > 0 ensures temp != Path(root, other) {
        TempIsNoBlob(root, key, random, other);
      }
      files := files[temp := []];
      if faults.write.Some? {
        files := files[temp := data[..if faults.write.value <= |data| then faults.write.value else |data|]];
        files := files - {temp};
        return false;
      }
      files := files[temp := data];
      if faults.close {
        files := files - {temp};
        return false;
      }
      if faults.rename {
        return false; // the temp file stays behind
      }
      forall other: Bytes | |other| > 0 && other != key ensures Path(root, other) != Path(root, key) {
        if Path(root, other) == Path(root, key) { PathInjective(root, other, key); }
      }
      files := (files - {temp})[Path(root, key) := data];
      return true;
    }

    /** `Get`: the blob stored under the key, None for a miss; `err` when a file that is there cannot be read. */
    method Get(key: Bytes, fails: bool) returns (data: Option<Bytes>, err: bool)
      requires Valid() && |key| > 0
      ensures err <==> fails && key in contents
      ensures data == if err then None else Lookup(contents, key)
    {
      hide Path;
      assert Lookup(files, Path(root, key)) == Lookup(contents, key);
      if Path(root, key) !in files {
        return None, false;
      }
      if fails {
        return None, true;
      }
      return Some(files[Path(root, key)]), false;
    }
  }

  datatype Put = Put(key: Bytes, data: Bytes, ok: bool)

  /** The data of the last successful Put under a key. */
  function LastPut(history: seq<Put>, key: Bytes): Option<Bytes> {
    if history == [] then None
    else
      var p := history[|history| - 1];
      if p.ok && p.key == key then Some(p.data) else LastPut(history[..|history| - 1], key)
  }

  /** A history of Puts on an empty store, with the files after each. */
  ghost predicate History(root: string, history: seq<Put>, states: seq<map<string, Bytes>>) {
    if history == [] then |states| == 1 && states[0] == map[]
    else
      var n := |history| - 1;
      && |states| == |history| + 1
      && History(root, history[..n], states[..n + 1])
      && |history[n].key| > 0
      && PutEffect(root, states[n], states[n + 1], history[n].key, history[n].data, history[n].ok)
  }

  /** A key reads what was last stored under it, never another key's blob. */
  lemma {:induction false} ReadsOwnBlob(root: string, history: seq<Put>, states: seq<map<string, Bytes>>, key: Bytes)
    requires History(root, history, states) && |key| > 0
    ensures Lookup(states[|states| - 1], Path(root, key)) == LastPut(history, key)
  {
    hide Path;
    if history != [] {
      var n := |history| - 1;
      ReadsOwnBlob(root, history[..n], states[..n + 1], key);
    }
  }
}
