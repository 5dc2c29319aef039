/**
 The streaming marker scan of internal/detect/detect.go: a windowed search over the reads of a
 file, with the last 64 bytes of each window carried into the next, against a search of the whole
 file. Each `char` stands for one byte.
 */
module BinaryMarkers {

  type Bytes = seq<char>

  const OVERLAP := 64

  datatype Needles = Needles(rust: seq<Bytes>, go: Bytes, wails: Bytes)

  const NEEDLES := Needles(
    ["core::panicking", "rust_panic", "rustc/", "panicked at ", "RUST_BACKTRACE"],
    "\U{ff} Go buildinf:",
    "github.com/wailsapp/wails")

  datatype ReadStatus = More | EOF | Broken

  /** One result of `Read`: the bytes it returned, possibly none, and its error. */
  datatype Read = Read(data: Bytes, status: ReadStatus)

  datatype Markers = Markers(rustHits: nat, hasGoBuildID: bool, isWails: bool)

  // ---------- whole-file search ----------

  predicate OccursAt(s: Bytes, needle: Bytes, i: int) {
    0 <= i && i + |needle| <= |s| && s[i..i + |needle|] == needle
  }

  ghost predicate Occurs(s: Bytes, needle: Bytes) {
    exists i :: OccursAt(s, needle, i)
  }

  /** How many positions in [lo, hi) start an occurrence. */
  ghost function OccurrencesIn(s: Bytes, needle: Bytes, lo: int, hi: int): nat
    decreases hi - lo
  {
    if lo >= hi then 0
    else (if OccursAt(s, needle, lo) then 1 else 0) + OccurrencesIn(s, needle, lo + 1, hi)
  }

  ghost function Occurrences(s: Bytes, needle: Bytes): nat {
    OccurrencesIn(s, needle, 0, |s|)
  }

  ghost function Hits(s: Bytes, needles: seq<Bytes>): nat {
    if needles == [] then 0
    else Hits(s, needles[..|needles| - 1]) + Occurrences(s, needles[|needles| - 1])
  }

  lemma {:induction false} SplitRange(s: Bytes, needle: Bytes, lo: int, mid: int, hi: int)
    requires lo <= mid <= hi
    ensures OccurrencesIn(s, needle, lo, hi)
         == OccurrencesIn(s, needle, lo, mid) + OccurrencesIn(s, needle, mid, hi)
    decreases mid - lo
  {
    if lo < mid { SplitRange(s, needle, lo + 1, mid, hi); }
  }

  lemma {:induction false} EmptyRange(s: Bytes, needle: Bytes, lo: int, hi: int)
    requires forall i :: lo <= i < hi ==> !OccursAt(s, needle, i)
    ensures OccurrencesIn(s, needle, lo, hi) == 0
    decreases hi - lo
  {
    if lo < hi { EmptyRange(s, needle, lo + 1, hi); }
  }

  lemma {:induction false} PositiveRange(s: Bytes, needle: Bytes, lo: int, hi: int)
    ensures OccurrencesIn(s, needle, lo, hi) > 0 <==> exists i :: lo <= i < hi && OccursAt(s, needle, i)
    decreases hi - lo
  {
    if lo < hi { PositiveRange(s, needle, lo + 1, hi); }
  }

  lemma {:induction false} OccurrencesPositive(s: Bytes, needle: Bytes)
    requires needle != []
    ensures Occurrences(s, needle) > 0 <==> Occurs(s, needle)
  {
    PositiveRange(s, needle, 0, |s|);
  }

  // ---------- bytes.Count ----------

  /** `bytes.Count`: the greedy count of non-overlapping occurrences from position `from`. */
  function Count(s: Bytes, needle: Bytes, from: nat): nat
    requires needle != []
    decreases |s| - from
  {
    if from + |needle| > |s| then 0
    else if OccursAt(s, needle, from) then 1 + Count(s, needle, from + |needle|)
    else Count(s, needle, from + 1)
  }

  /** `bytes.Contains` */
  function Contains(s: Bytes, needle: Bytes): (r: bool)
    requires needle != []
    ensures r <==> Occurs(s, needle)
  {
    exists i :: 0 <= i < |s| && OccursAt(s, needle, i)
  }

  /** No proper prefix of the needle is also a suffix, so two occurrences never overlap. */
  ghost predicate Borderless(needle: Bytes) {
    forall d :: 0 < d < |needle| ==> needle[d..] != needle[..|needle| - d]
  }

  lemma {:induction false} OverlapMakesBorder(s: Bytes, needle: Bytes, i: int, j: int)
    requires OccursAt(s, needle, i) && OccursAt(s, needle, j) && i < j < i + |needle|
    ensures !Borderless(needle)
  {
    var d := j - i;
    assert needle[d..] == s[i..i + |needle|][d..] == s[j..i + |needle|];
    assert needle[..|needle| - d] == s[j..j + |needle|][..|needle| - d] == s[j..i + |needle|];
  }

  lemma {:induction false} CountCountsAll(s: Bytes, needle: Bytes, from: nat)
    requires needle != [] && Borderless(needle)
    ensures Count(s, needle, from) == OccurrencesIn(s, needle, from, |s|)
    decreases |s| - from
  {
    if from + |needle| > |s| {
      EmptyRange(s, needle, from, |s|);
    } else if OccursAt(s, needle, from) {
      forall i | from + 1 <= i < from + |needle| ensures !OccursAt(s, needle, i) {
        if OccursAt(s, needle, i) { OverlapMakesBorder(s, needle, from, i); }
      }
      EmptyRange(s, needle, from + 1, from + |needle|);
      SplitRange(s, needle, from + 1, from + |needle|, |s|);
      CountCountsAll(s, needle, from + |needle|);
    } else {
      CountCountsAll(s, needle, from + 1);
    }
  }

  lemma {:induction false} BorderlessByEnd(needle: Bytes)
    requires needle != []
    requires (forall k :: 0 <= k < |needle| - 1 ==> needle[k] != needle[|needle| - 1])
          || (forall k :: 0 < k < |needle| ==> needle[k] != needle[0])
    ensures Borderless(needle)
  {
    forall d | 0 < d < |needle| ensures needle[d..] != needle[..|needle| - d] {
      var suffix, prefix := needle[d..], needle[..|needle| - d];
      assert suffix[0] == needle[d] && prefix[0] == needle[0];
      assert suffix[|needle| - d - 1] == needle[|needle| - 1];
      assert prefix[|needle| - d - 1] == needle[|needle| - d - 1];
    }
  }

  /** What the scan needs of its needles: they fit in the overlap and cannot overlap themselves. */
  ghost predicate Suitable(n: Needles) {
    && (forall k :: 0 <= k < |n.rust| ==> 0 < |n.rust[k]| <= OVERLAP && Borderless(n.rust[k]))
    && 0 < |n.go| <= OVERLAP
    && 0 < |n.wails| <= OVERLAP
  }

  lemma {:induction false} NeedlesSuitable()
    ensures Suitable(NEEDLES)
  {
    forall k | 0 <= k < |NEEDLES.rust| ensures 0 < |NEEDLES.rust[k]| <= OVERLAP && Borderless(NEEDLES.rust[k]) {
      BorderlessByEnd(NEEDLES.rust[k]);
    }
  }

  // ---------- one window ----------

  function Suffix(s: Bytes): (t: Bytes)
    ensures |t| == if |s| > OVERLAP then OVERLAP else |s|
  {
    if |s| > OVERLAP then s[|s| - OVERLAP..] else s
  }

  /** Positions in the window are positions in the file, shifted. */
  lemma {:induction false} WindowPositions(seen: Bytes, chunk: Bytes, needle: Bytes, i: int)
    requires |seen| - |Suffix(seen)| <= i
    ensures OccursAt(seen + chunk, needle, i) <==>
              OccursAt(Suffix(seen) + chunk, needle, i - (|seen| - |Suffix(seen)|))
  {
    var off := |seen| - |Suffix(seen)|;
    var whole, region := seen + chunk, Suffix(seen) + chunk;
    assert whole[off..] == region;
    if i + |needle| <= |whole| {
      assert whole[i..i + |needle|] == region[i - off..i - off + |needle|];
    }
  }

  lemma {:induction false} PrefixPositions(s: Bytes, more: Bytes, needle: Bytes, i: int)
    requires i + |needle| <= |s|
    ensures OccursAt(s + more, needle, i) <==> OccursAt(s, needle, i)
  {
    if 0 <= i {
      assert (s + more)[i..i + |needle|] == s[i..i + |needle|];
    }
  }

  /** Occurrences that end inside the first `n` bytes start before this position. */
  ghost function Bound(n: nat, needle: Bytes): (b: nat)
    ensures b <= n
    requires needle != []
  {
    if n < |needle| then 0 else n - |needle| + 1
  }

  lemma {:induction false} CountBefore(s: Bytes, more: Bytes, needle: Bytes, lo: nat)
    requires needle != []
    ensures OccurrencesIn(s, needle, lo, |s|) == OccurrencesIn(s + more, needle, lo, Bound(|s|, needle))
    decreases |s| - lo
  {
    if lo < Bound(|s|, needle) {
      PrefixPositions(s, more, needle, lo);
      CountBefore(s, more, needle, lo + 1);
    } else {
      EmptyRange(s, needle, lo, |s|);
    }
  }

  lemma {:induction false} CountSplit(s: Bytes, more: Bytes, needle: Bytes)
    requires needle != []
    ensures Occurrences(s + more, needle)
         == Occurrences(s, needle) + OccurrencesIn(s + more, needle, Bound(|s|, needle), |s| + |more|)
  {
    CountBefore(s, more, needle, 0);
    SplitRange(s + more, needle, 0, Bound(|s|, needle), |s| + |more|);
  }

  lemma {:induction false} CountFrom(seen: Bytes, chunk: Bytes, needle: Bytes, lo: int)
    requires |seen| - |Suffix(seen)| <= lo
    ensures OccurrencesIn(seen + chunk, needle, lo, |seen| + |chunk|)
         == OccurrencesIn(Suffix(seen) + chunk, needle, lo - (|seen| - |Suffix(seen)|), |Suffix(seen)| + |chunk|)
    decreases |seen| + |chunk| - lo
  {
    if lo < |seen| + |chunk| {
      WindowPositions(seen, chunk, needle, lo);
      CountFrom(seen, chunk, needle, lo + 1);
    }
  }

  /** The window sees each new occurrence once, and the carried-over ones again. */
  lemma {:induction false} WindowCounts(seen: Bytes, chunk: Bytes, needle: Bytes)
    requires 0 < |needle| <= OVERLAP
    ensures Occurrences(Suffix(seen) + chunk, needle) + Occurrences(seen, needle)
         == Occurrences(seen + chunk, needle) + Occurrences(Suffix(seen), needle)
  {
    CountSplit(seen, chunk, needle);
    CountSplit(Suffix(seen), chunk, needle);
    CountFrom(seen, chunk, needle, Bound(|seen|, needle));
    assert Bound(|seen|, needle) - (|seen| - |Suffix(seen)|) == Bound(|Suffix(seen)|, needle);
  }

  lemma {:induction false} WindowHits(seen: Bytes, chunk: Bytes, needles: seq<Bytes>)
    requires forall k :: 0 <= k < |needles| ==> 0 < |needles[k]| <= OVERLAP
    ensures Hits(Suffix(seen) + chunk, needles) + Hits(seen, needles)
         == Hits(seen + chunk, needles) + Hits(Suffix(seen), needles)
  {
    if needles != [] {
      WindowHits(seen, chunk, needles[..|needles| - 1]);
      WindowCounts(seen, chunk, needles[|needles| - 1]);
    }
  }

  lemma {:induction false} WindowOccurs(seen: Bytes, chunk: Bytes, needle: Bytes)
    requires 0 < |needle| <= OVERLAP
    ensures Occurrences(seen + chunk, needle) > 0 <==>
              Occurrences(seen, needle) > 0 || Occurs(Suffix(seen) + chunk, needle)
  {
    WindowCounts(seen, chunk, needle);
    OccurrencesPositive(Suffix(seen) + chunk, needle);
    OccurrencesPositive(seen, needle);
    OccurrencesPositive(Suffix(seen), needle);
    SuffixOccurs(seen, needle);
    CountSplit(seen, chunk, needle);
    CountSplit(Suffix(seen), chunk, needle);
  }

  lemma {:induction false} SuffixOccurs(s: Bytes, needle: Bytes)
    ensures Occurs(Suffix(s), needle) ==> Occurs(s, needle)
  {
    if Occurs(Suffix(s), needle) {
      var i :| OccursAt(Suffix(s), needle, i);
      var off := |s| - |Suffix(s)|;
      assert s[off + i..off + i + |needle|] == Suffix(s)[i..i + |needle|];
      assert OccursAt(s, needle, off + i);
    }
  }

  lemma {:induction false} SuffixOfAppend(seen: Bytes, chunk: Bytes)
    ensures Suffix(Suffix(seen) + chunk) == Suffix(seen + chunk)
  {
  }

  // ---------- the whole scan ----------

  /** The bytes handed out before the reader reports an end or an error, that read included. */
  ghost function Delivered(input: seq<Read>): Bytes {
    if input == [] then []
    else if input[0].status == More then input[0].data + Delivered(input[1..])
    else input[0].data
  }

  /** Occurrences lying wholly inside a carried-over tail, counted once for each read that follows. */
  ghost function Recounted(n: Needles, seen: Bytes, input: seq<Read>): nat
    decreases |input|
  {
    if input == [] then 0
    else
      (if input[0].data == [] then 0 else Hits(Suffix(seen), n.rust))
      + if input[0].status == More then Recounted(n, seen + input[0].data, input[1..]) else 0
  }

  lemma {:induction false} HitsInSuffix(s: Bytes, needles: seq<Bytes>)
    requires forall k :: 0 <= k < |needles| ==> 0 < |needles[k]| <= OVERLAP
    ensures Hits(s, needles) == 0 ==> Hits(Suffix(s), needles) == 0
  {
    if needles != [] {
      var needle := needles[|needles| - 1];
      HitsInSuffix(s, needles[..|needles| - 1]);
      OccurrencesPositive(s, needle);
      OccurrencesPositive(Suffix(s), needle);
      SuffixOccurs(s, needle);
    }
  }

  lemma {:induction false} HitsGrow(s: Bytes, more: Bytes, needles: seq<Bytes>)
    requires forall k :: 0 <= k < |needles| ==> 0 < |needles[k]|
    ensures Hits(s, needles) <= Hits(s + more, needles)
  {
    if needles != [] {
      HitsGrow(s, more, needles[..|needles| - 1]);
      CountSplit(s, more, needles[|needles| - 1]);
    }
  }

  /** Nothing is recounted in a file without markers, so a zero is never spurious. */
  lemma {:induction false} NothingToRecount(n: Needles, seen: Bytes, input: seq<Read>)
    requires Suitable(n)
    requires Hits(seen + Delivered(input), n.rust) == 0
    ensures Recounted(n, seen, input) == 0
    decreases |input|
  {
    if input != [] {
      HitsGrow(seen, Delivered(input), n.rust);
      HitsInSuffix(seen, n.rust);
      if input[0].status == More {
        assert seen + Delivered(input) == seen + input[0].data + Delivered(input[1..]);
        NothingToRecount(n, seen + input[0].data, input[1..]);
      }
    }
  }

  lemma {:induction false} HitsOfEmpty(needles: seq<Bytes>)
    ensures Hits([], needles) == 0
  {
    if needles != [] { HitsOfEmpty(needles[..|needles| - 1]); }
  }

  /** What one non-empty read contributes, for the counter and for both flags. */
  lemma {:induction false} AbsorbWindow(n: Needles, seen: Bytes, chunk: Bytes)
    requires Suitable(n)
    ensures Hits(Suffix(seen) + chunk, n.rust) + Hits(seen, n.rust)
         == Hits(seen + chunk, n.rust) + Hits(Suffix(seen), n.rust)
    ensures Occurrences(seen + chunk, n.go) > 0 <==>
              Occurrences(seen, n.go) > 0 || Occurs(Suffix(seen) + chunk, n.go)
    ensures Occurrences(seen + chunk, n.wails) > 0 <==>
              Occurrences(seen, n.wails) > 0 || Occurs(Suffix(seen) + chunk, n.wails)
    ensures Suffix(Suffix(seen) + chunk) == Suffix(seen + chunk)
  {
    WindowHits(seen, chunk, n.rust);
    WindowOccurs(seen, chunk, n.go);
    WindowOccurs(seen, chunk, n.wails);
    SuffixOfAppend(seen, chunk);
  }

  /** The inner loop over the needles: all their occurrences in one window. */
  method CountRust(n: Needles, region: Bytes) returns (hits: nat)
    requires Suitable(n)
    ensures hits == Hits(region, n.rust)
  {
    hits := 0;
    var k := 0;
    while k < |n.rust|
      invariant 0 <= k <= |n.rust|
      invariant hits == Hits(region, n.rust[..k])
    {
      CountCountsAll(region, n.rust[k], 0);
      assert n.rust[..k + 1][..k] == n.rust[..k];
      hits := hits + Count(region, n.rust[k], 0);
      k := k + 1;
    }
    assert n.rust[..|n.rust|] == n.rust;
  }

  /** The markers of the bytes seen so far, given how many occurrences were recounted. */
  ghost predicate Marks(n: Needles, m: Markers, seen: Bytes, recounted: nat) {
    && m.rustHits == Hits(seen, n.rust) + recounted
    && (m.hasGoBuildID <==> Occurrences(seen, n.go) > 0)
    && (m.isWails <==> Occurrences(seen, n.wails) > 0)
  }

  /** One non-empty read: search the carried-over tail plus the chunk, then carry 64 bytes on. */
  method ScanWindow(n: Needles, m0: Markers, tail0: Bytes, chunk: Bytes, ghost seen: Bytes, ghost recounted: nat)
    returns (m: Markers, tail: Bytes)
    requires Suitable(n)
    requires tail0 == Suffix(seen) && Marks(n, m0, seen, recounted)
    ensures tail == Suffix(seen + chunk)
    ensures Marks(n, m, seen + chunk, recounted + Hits(Suffix(seen), n.rust))
  {
    m := m0;
    var region := tail0 + chunk;
    var hits := CountRust(n, region);
    m := m.(rustHits := m.rustHits + hits);
    AbsorbWindow(n, seen, chunk);
    if !m.hasGoBuildID && Contains(region, n.go) {
      m := m.(hasGoBuildID := true);
    }
    if !m.isWails && Contains(region, n.wails) {
      m := m.(isWails := true);
    }
    if |region| > OVERLAP {
      tail := region[|region| - OVERLAP..];
    } else {
      tail := region;
    }
  }

  /** Where the scan stands: what it has seen and what the remaining reads still hold. */
  ghost predicate Midway(n: Needles, input: seq<Read>, rest: seq<Read>, seen: Bytes, recounted: nat) {
    && Delivered(input) == seen + Delivered(rest)
    && Recounted(n, [], input) == recounted + Recounted(n, seen, rest)
  }

  ghost function After(rest: seq<Read>): seq<Read>
    requires rest != []
  {
    if rest[0].status == More then rest[1..] else []
  }

  lemma {:induction false} Advance(n: Needles, input: seq<Read>, rest: seq<Read>, seen: Bytes, recounted: nat)
    requires rest != [] && Midway(n, input, rest, seen, recounted)
    ensures Midway(n, input, After(rest), seen + rest[0].data,
              recounted + if rest[0].data == [] then 0 else Hits(Suffix(seen), n.rust))
  {
    assert seen + (rest[0].data + Delivered(After(rest))) == (seen + rest[0].data) + Delivered(After(rest));
  }

  /** The scan loop, for any needles that fit. */
  method ScanReads(n: Needles, input: seq<Read>) returns (m: Markers)
    requires Suitable(n)
    ensures Marks(n, m, Delivered(input), Recounted(n, [], input))
  {
    ghost var seen: Bytes, recounted: nat := [], 0;
    m := Markers(0, false, false);
    HitsOfEmpty(n.rust);
    var tail: Bytes := [];
    var i := 0;
    var done := false;
    ghost var rest := input;
    while i < |input| && !done
      invariant 0 <= i <= |input|
      invariant rest == if done then [] else input[i..]
      invariant tail == Suffix(seen) && Marks(n, m, seen, recounted)
      invariant Midway(n, input, rest, seen, recounted)
    {
      var data := input[i].data;
      Advance(n, input, rest, seen, recounted);
      if data != [] {
        m, tail := ScanWindow(n, m, tail, data, seen, recounted);
        recounted := recounted + Hits(Suffix(seen), n.rust);
        seen := seen + data;
      } else {
        assert seen + data == seen;
      }
      done := input[i].status != More;
      rest := After(rest);
      i := i + 1;
    }
    assert Delivered(input) == seen;
  }

  /**
   `scanBinaryMarkers`. For every split of the file into reads the two flags agree with a search of
   the whole file, and `rustHits` exceeds the true number of occurrences by exactly the recounted ones.
   */
  method ScanBinaryMarkers(openOk: bool, input: seq<Read>) returns (m: Markers)
    ensures !openOk ==> m == Markers(0, false, false)
    ensures openOk ==> (m.hasGoBuildID <==> Occurs(Delivered(input), NEEDLES.go))
    ensures openOk ==> (m.isWails <==> Occurs(Delivered(input), NEEDLES.wails))
    ensures openOk ==> m.rustHits == Hits(Delivered(input), NEEDLES.rust) + Recounted(NEEDLES, [], input)
    ensures openOk ==> (m.rustHits == 0 <==> Hits(Delivered(input), NEEDLES.rust) == 0)
  {
    if !openOk { return Markers(0, false, false); }
    NeedlesSuitable();
    m := ScanReads(NEEDLES, input);
    ghost var file := Delivered(input);
    OccurrencesPositive(file, NEEDLES.go);
    OccurrencesPositive(file, NEEDLES.wails);
    assert [] + file == file;
    if Hits(file, NEEDLES.rust) == 0 { NothingToRecount(NEEDLES, [], input); }
  }
}
