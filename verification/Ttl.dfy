/**
 Blobs with an expiry (internal/cache/ttl.go): an eight-byte big-endian header in front of the
 payload. Times and durations are in nanoseconds.
 */
module Ttl {
  import opened Basics
  import opened Sharded
  import AsyncCache
  import BlobCache
  import BlobRuns
  import CacheRuns

  const MAX_INT64 := 0x7fff_ffff_ffff_ffff
  const TWO_TO_THE_64 := 0x1_0000_0000_0000_0000

  // ---------- the header ----------

  /** Appends the digits of a byte string, in base 256, to a number. */
  function ValueFrom(high: nat, bs: Bytes): nat
    decreases |bs|
  {
    if bs == [] then high else ValueFrom(256 * high + bs[0], bs[1..])
  }

  /** The number a byte string stands for, most significant byte first. */
  function Value(bs: Bytes): nat {
    ValueFrom(0, bs)
  }

  function Pow256(k: nat): nat {
    if k == 0 then 1 else 256 * Pow256(k - 1)
  }

  lemma {:induction false} Pow256Of8()
    ensures Pow256(8) == TWO_TO_THE_64
  {
    assert Pow256(2) == 0x1_0000;
    assert Pow256(4) == 0x1_0000_0000;
    assert Pow256(6) == 0x1_0000_0000_0000;
  }

  /** Moving the lowest digit of the high part into the bytes keeps the number. */
  lemma {:induction false} Carry(high: nat, bs: Bytes)
    ensures ValueFrom(high / 256, [high % 256] + bs) == ValueFrom(high, bs)
  {
    assert ([high % 256] + bs)[1..] == bs;
  }

  /** `binary.BigEndian.PutUint64` on the first eight bytes of a buffer. */
  method PutUint64(buf: array<Byte>, v: nat)
    requires buf.Length >= 8 && v <= MAX_INT64
    modifies buf
    ensures Value(buf[..8]) == v
    ensures buf[8..] == old(buf[8..])
  {
    Pow256Of8();
    var rest, i := v, 8;
    while i > 0
      invariant 0 <= i <= 8 && 0 <= rest < Pow256(i)
      invariant ValueFrom(rest, buf[i..8]) == v
      invariant buf[8..] == old(buf[8..])
    {
      ghost var low := buf[i..8];
      i := i - 1;
      buf[i] := rest % 256;
      assert buf[i..8] == [rest % 256] + low;
      Carry(rest, low);
      rest := rest / 256;
    }
    assert buf[0..8] == buf[..8];
  }

  /** `binary.BigEndian.Uint64` */
  method Uint64(blob: Bytes) returns (v: nat)
    requires |blob| >= 8
    ensures v == Value(blob[..8])
  {
    v := 0;
    assert blob[0..8] == blob[..8];
    for i := 0 to 8
      invariant ValueFrom(v, blob[i..8]) == Value(blob[..8])
    {
      assert blob[i..8][1..] == blob[i + 1..8];
      v := 256 * v + blob[i];
    }
  }

  // ---------- freshness ----------

  /** What `Get` makes of a blob at a time: None for missing, malformed or expired. */
  function Fresh(blob: Option<Bytes>, now: int): Option<Bytes> {
    if blob.None? || |blob.value| < 8 then None
    else
      var raw := Value(blob.value[..8]);
      if raw > MAX_INT64 || now >= raw then None else Some(blob.value[8..])
  }

  /** A blob that carries a payload until `expiry`. */
  predicate Carries(blob: Bytes, payload: Bytes, expiry: nat) {
    |blob| == 8 + |payload| && Value(blob[..8]) == expiry && blob[8..] == payload
  }

  /** Such a blob is readable exactly until its expiry. */
  lemma {:induction false} FreshUntilExpiry(blob: Bytes, payload: Bytes, expiry: nat, now: int)
    requires Carries(blob, payload, expiry) && expiry <= MAX_INT64
    ensures Fresh(Some(blob), now) == if now < expiry then Some(payload) else None
  {
  }

  /** Building the blob in `Put`. */
  method MakeBlob(payload: Bytes, expiry: nat) returns (blob: Bytes)
    requires expiry <= MAX_INT64
    ensures Carries(blob, payload, expiry)
  {
    var buf := new Byte[8 + |payload|];
    PutUint64(buf, expiry);
    ghost var header := buf[..8];
    for i := 0 to |payload|
      invariant buf[..8] == header
      invariant buf[8..8 + i] == payload[..i]
    {
      buf[8 + i] := payload[i];
    }
    blob := buf[..];
    assert blob[..8] == header;
    assert blob[8..] == buf[8..8 + |payload|] == payload[..|payload|] == payload;
  }

  // ---------- the store without a background writer ----------

  datatype TtlPut = TtlPut(key: Bytes, payload: Bytes, now: int, ttl: int, ok: bool)

  /** `UnixNano` of an instant: a signed 64-bit number, which wraps around. */
  function UnixNano(t: int): int {
    var low := t % TWO_TO_THE_64;
    if low > MAX_INT64 then low - TWO_TO_THE_64 else low
  }

  /** It is the instant itself exactly within the signed 64-bit range. */
  lemma {:induction false} UnixNanoExact(t: int)
    ensures UnixNano(t) == t <==> -MAX_INT64 - 1 <= t <= MAX_INT64
  {
    if 0 <= t <= MAX_INT64 {
      assert t % TWO_TO_THE_64 == t;
    } else if -MAX_INT64 - 1 <= t < 0 {
      assert (t + TWO_TO_THE_64) % TWO_TO_THE_64 == t + TWO_TO_THE_64;
    }
  }

  lemma {:induction false} UnixNanoBounded(t: int)
    ensures -MAX_INT64 - 1 <= UnixNano(t) <= MAX_INT64
  {
  }

  function Expiry(p: TtlPut): int {
    UnixNano(p.now + p.ttl)
  }

  /** What a key reads at a time. */
  ghost function Seen(root: string, files: map<string, Bytes>, key: Bytes, t: int): Option<Bytes>
    requires |key| > 0
  {
    Fresh(Lookup(files, Path(root, key)), t)
  }

  /** The expiry of a Put is its time plus its ttl, as far as that fits into a signed 64-bit number. */
  predicate Fits(p: TtlPut) {
    0 <= p.now + p.ttl <= 0x7fff_ffff_ffff_ffff
  }

  /** A signed 64-bit number that differs from a time by whole turns of the 64-bit range. */
  predicate Stamp(t: int, e: int) {
    -0x8000_0000_0000_0000 <= e <= 0x7fff_ffff_ffff_ffff && (t - e) % 0x1_0000_0000_0000_0000 == 0
  }

  lemma {:induction false} ExpiryIsStamp(p: TtlPut)
    ensures Stamp(p.now + p.ttl, Expiry(p)) && (Fits(p) ==> Expiry(p) == p.now + p.ttl)
  {
    var t, low := p.now + p.ttl, (p.now + p.ttl) % TWO_TO_THE_64;
    assert (t - low) % TWO_TO_THE_64 == 0;
    assert (t - low + TWO_TO_THE_64) % TWO_TO_THE_64 == 0;
    UnixNanoExact(t);
  }

  /** What a key reads at a time when its last Put is this one. */
  ghost predicate ReadsAs(p: TtlPut, t: int, seen: Option<Bytes>) {
    && (Fits(p) ==> seen == if t < p.now + p.ttl then Some(p.payload) else None)
    && ReadsUntil(p.now + p.ttl, p.payload, t, seen)
  }

  ghost predicate ReadsUntil(due: int, payload: Bytes, t: int, seen: Option<Bytes>) {
    exists e :: Stamp(due, e) && seen == if t < e then Some(payload) else None
  }

  /** A successful Put is readable at its key strictly before its expiry; nothing else changes. */
  ghost predicate TtlEffect(root: string, files: map<string, Bytes>, files': map<string, Bytes>, p: TtlPut) {
    forall key: Bytes, t: int :: |key| > 0 ==>
      Seen(root, files', key, t) ==
      if p.ok && key == p.key then (if t < Expiry(p) then Some(p.payload) else None) else Seen(root, files, key, t)
  }

  class TtlStore {
    const store: ShardedStore

    constructor (s: ShardedStore)
      ensures store == s
    {
      store := s;
    }

    /** `Get` at a time; a read that fails is a miss. */
    method Get(key: Bytes, now: int, fails: bool) returns (payload: Option<Bytes>)
      requires store.Valid() && |key| > 0
      ensures payload == if fails then None else Seen(store.root, store.files, key, now)
    {
      hide Path;
      assert Lookup(store.files, Path(store.root, key)) == Lookup(store.contents, key);
      var blob, err := store.Get(key, fails);
      if err || blob.None? || |blob.value| < 8 {
        return None;
      }
      var raw := Uint64(blob.value);
      if raw > MAX_INT64 || now >= raw {
        return None;
      }
      return Some(blob.value[8..]);
    }

    /** `Put` with no background writer; `ok` is the nil error. */
    method Put(key: Bytes, payload: Bytes, now: int, ttl: int, random: string, faults: Faults) returns (ok: bool)
      requires store.Valid() && |key| > 0
      modifies store
      ensures store.Valid()
      ensures ok <==> && UnixNano(now + ttl) >= 0 && |payload| <= MAX_INT64 - 8
                      && faults == NONE && TempPath(store.root, key, random) !in old(store.files)
      ensures -0x8000_0000_0000_0000 <= now + ttl < 0 ==> !ok
      ensures 0 <= now + ttl <= 0x7fff_ffff_ffff_ffff ==>
                (ok <==> |payload| <= MAX_INT64 - 8 && faults == NONE && TempPath(store.root, key, random) !in old(store.files))
      ensures TtlEffect(store.root, old(store.files), store.files, TtlPut(key, payload, now, ttl, ok))
      ensures ok ==> forall t: int :: ReadsAs(TtlPut(key, payload, now, ttl, ok), t, Seen(store.root, store.files, key, t))
    {
      hide Path, Fresh, TempPath, UnixNano, Stamp;
      UnixNanoExact(now + ttl);
      var expiry := UnixNano(now + ttl);
      if expiry < 0 || |payload| > MAX_INT64 - 8 {
        return false;
      }
      UnixNanoBounded(now + ttl);
      ghost var put := TtlPut(key, payload, now, ttl, true);
      ExpiryIsStamp(put);
      var blob := MakeBlob(payload, expiry);
      ok := store.Put(key, blob, random, faults);
      forall k: Bytes, t: int | |k| > 0
        ensures Seen(store.root, store.files, k, t) ==
                if ok && k == key then (if t < expiry then Some(payload) else None)
                else Seen(store.root, old(store.files), k, t)
      {
        FreshUntilExpiry(blob, payload, expiry, t);
        assert Lookup(store.files, Path(store.root, k))
            == if ok && k == key then Some(blob) else Lookup(old(store.files), Path(store.root, k));
      }
    }
  }

  /** A history of Puts on an empty store, with the files after each. */
  ghost predicate TtlHistory(root: string, history: seq<TtlPut>, states: seq<map<string, Bytes>>) {
    if history == [] then |states| == 1 && states[0] == map[]
    else
      var n := |history| - 1;
      && |states| == |history| + 1
      && TtlHistory(root, history[..n], states[..n + 1])
      && TtlEffect(root, states[n], states[n + 1], history[n])
  }

  /** The last successful Put under a key. */
  function LastTtlPut(history: seq<TtlPut>, key: Bytes): Option<TtlPut> {
    if history == [] then None
    else
      var p := history[|history| - 1];
      if p.ok && p.key == key then Some(p) else LastTtlPut(history[..|history| - 1], key)
  }

  /** `Get` returns exactly the last successful Put's payload, until that Put's expiry. */
  lemma {:induction false} GetIsLastPut(root: string, history: seq<TtlPut>, states: seq<map<string, Bytes>>, key: Bytes, t: int)
    requires TtlHistory(root, history, states) && |key| > 0
    ensures var last, seen := LastTtlPut(history, key), Seen(root, states[|states| - 1], key, t);
            if last.Some? then ReadsAs(last.value, t, seen) else seen == None
  {
    hide Path, Stamp, Fits;
    SeenIsLastPut(root, history, states, key, t);
    if LastTtlPut(history, key).Some? { ExpiryIsStamp(LastTtlPut(history, key).value); }
  }

  lemma {:induction false} SeenIsLastPut(root: string, history: seq<TtlPut>, states: seq<map<string, Bytes>>, key: Bytes, t: int)
    requires TtlHistory(root, history, states) && |key| > 0
    ensures var last := LastTtlPut(history, key);
            Seen(root, states[|states| - 1], key, t)
            == if last.Some? && t < Expiry(last.value) then Some(last.value.payload) else None
  {
    hide Path;
    if history != [] {
      var n := |history| - 1;
      SeenIsLastPut(root, history[..n], states[..n + 1], key, t);
      assert Seen(root, states[n + 1], key, t) ==
             if history[n].ok && key == history[n].key
             then (if t < Expiry(history[n]) then Some(history[n].payload) else None)
             else Seen(root, states[n], key, t);
    }
  }

  // ---------- the store with a background writer ----------

  /** The writes handed to the background writer are the blobs of these Puts, one for one. */
  ghost predicate Blobs(jobs: seq<AsyncCache.Job>, puts: seq<TtlPut>) {
    && |jobs| == |puts|
    && forall i :: 0 <= i < |jobs| ==>
         && jobs[i].key == puts[i].key
         && 0 <= Expiry(puts[i])
         && Carries(jobs[i].data, puts[i].payload, Expiry(puts[i]))
  }

  /**
   However the background writer reorders and overlaps its work, and at whatever moment the file is
   read: a payload is read at time `t` only if some Put of that payload under that key expires strictly
   after `t`, or it was there, and readable at `t`, before the first of them.
   */
  lemma {:induction false} GetOnlyUnexpired(cfg: BlobCache.Config, files: map<string, Bytes>, es: seq<BlobCache.Event>, puts: seq<TtlPut>, key: Bytes, t: int)
    requires |key| > 0
    requires Blobs(BlobCache.Run(cfg, files, es).writer.jobs, puts)
    ensures var seen := Seen(cfg.root, BlobCache.Run(cfg, files, es).files, key, t);
            seen.Some? ==>
              || (exists i :: 0 <= i < |puts| && puts[i].key == key && puts[i].payload == seen.value && ReadsAs(puts[i], t, seen))
              || seen == Seen(cfg.root, files, key, t)
  {
    hide BlobCache.Run, Path, UnixNano, Stamp, Fits;
    var c := BlobCache.Run(cfg, files, es);
    BlobRuns.GetSeesWholeBlob(cfg, files, es, key);
    if CacheRuns.SomeWrote(c.writer.jobs, key) {
      var data := c.files[Path(cfg.root, key)];
      var i :| 0 <= i < |c.writer.jobs| && CacheRuns.Wrote(c.writer.jobs[i], key) && c.writer.jobs[i].data == data;
      UnixNanoBounded(puts[i].now + puts[i].ttl);
      FreshUntilExpiry(data, puts[i].payload, Expiry(puts[i]), t);
      ExpiryIsStamp(puts[i]);
      assert puts[i].key == key;
    }
  }
}
