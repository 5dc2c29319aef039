/**
 GC-log summaries (internal/gclog/gclog.go): parsing as a homomorphism from lists of lines to
 summaries under `Merge`. The regular expressions that read one line are a parameter.
 */
module GcLog {
  import opened Basics
  import opened Counting

  datatype Pause = Pause(id: int, kind: string, cause: string, pauseMs: real, beforeMB: int, afterMB: int, heapMB: int)

  datatype Summary = Summary(
    pauses: nat, totalPauseMs: real, maxPauseMs: real, avgPauseMs: real,
    fullGCCount: nat, youngGCCount: nat, systemGCCount: nat, systemFullGCCount: nat,
    evacuationFailures: nat, causes: map<string, nat>, longestPause: Option<Pause>)

  const EMPTY := Summary(0, 0.0, 0.0, 0.0, 0, 0, 0, 0, 0, map[], None)

  /** `parsePause`: what a line says, if it is a completed pause. */
  type Reader = string -> Option<Pause>

  /** `strings.Contains` */
  predicate Contains(s: string, t: string) {
    t <= s || (s != [] && Contains(s[1..], t))
  }

  /** The one string stands in the other at some place. */
  ghost predicate Occurs(s: string, t: string) {
    exists k :: 0 <= k <= |s| && t <= s[k..]
  }

  lemma {:induction false} ContainsExactly(s: string, t: string)
    ensures Contains(s, t) <==> Occurs(s, t)
    decreases |s|
  {
    assert s[0..] == s;
    if s != [] {
      ContainsExactly(s[1..], t);
      if Occurs(s[1..], t) {
        var k :| 0 <= k <= |s[1..]| && t <= s[1..][k..];
        assert s[k + 1..] == s[1..][k..];
      }
      if k :| 0 < k <= |s| && t <= s[k..] {
        assert s[1..][k - 1..] == s[k..];
      }
    }
  }

  // ---------- accumulate ----------

  function CauseCount(causes: map<string, nat>, k: string): nat {
    if k in causes then causes[k] else 0
  }

  function Bump(causes: map<string, nat>, k: string): map<string, nat> {
    causes[k := CauseCount(causes, k) + 1]
  }

  predicate IsYoung(p: Pause) { p.kind == "Young" || p.kind == "Mixed" }

  predicate IsSystem(p: Pause) { Contains(p.cause, "System.gc") }

  predicate IsEvacuationFailure(raw: string) {
    Contains(raw, "Evacuation Failure") || Contains(raw, "to-space exhausted")
  }

  function Accumulate(s: Summary, p: Pause, raw: string): Summary {
    var longer := p.pauseMs > s.maxPauseMs;
    Summary(
      s.pauses + 1,
      s.totalPauseMs + p.pauseMs,
      if longer then p.pauseMs else s.maxPauseMs,
      s.avgPauseMs,
      s.fullGCCount + One(p.kind == "Full"),
      s.youngGCCount + One(IsYoung(p)),
      s.systemGCCount + One(IsSystem(p)),
      s.systemFullGCCount + One(IsSystem(p) && p.kind == "Full"),
      s.evacuationFailures + One(IsEvacuationFailure(raw)),
      if p.cause != "" then Bump(s.causes, p.cause) else s.causes,
      if longer then Some(p) else s.longestPause)
  }

  function WithLine(s: Summary, reader: Reader, line: string): Summary {
    match reader(line)
    case None => s
    case Some(p) => Accumulate(s, p, line)
  }

  function Scan(reader: Reader, lines: seq<string>): Summary {
    if lines == [] then EMPTY else WithLine(Scan(reader, lines[..|lines| - 1]), reader, lines[|lines| - 1])
  }

  function WithAverage(s: Summary): Summary {
    s.(avgPauseMs := if s.pauses > 0 then s.totalPauseMs / s.pauses as real else 0.0)
  }

  function ParseLines(reader: Reader, lines: seq<string>): Summary {
    WithAverage(Scan(reader, lines))
  }

  /** `Parse`, over the lines the scanner delivers. */
  method Parse(reader: Reader, lines: seq<string>) returns (s: Summary)
    ensures s == ParseLines(reader, lines)
  {
    s := EMPTY;
    var i := 0;
    ScanKeepsNoAverage(reader, lines);
    while i < |lines|
      invariant 0 <= i <= |lines|
      invariant s == Scan(reader, lines[..i])
    {
      assert lines[..i + 1][..i] == lines[..i];
      var parsed := reader(lines[i]);
      if parsed.Some? {
        s := Accumulate(s, parsed.value, lines[i]);
      }
      i := i + 1;
    }
    assert lines[..|lines|] == lines;
    if s.pauses > 0 {
      s := s.(avgPauseMs := s.totalPauseMs / s.pauses as real);
    }
  }

  lemma {:induction false} ScanKeepsNoAverage(reader: Reader, lines: seq<string>)
    ensures Scan(reader, lines).avgPauseMs == 0.0
  {
    if lines != [] { ScanKeepsNoAverage(reader, lines[..|lines| - 1]); }
  }

  // ---------- merge ----------

  function MergeCauses(a: map<string, nat>, b: map<string, nat>): map<string, nat> {
    map k | k in a.Keys + b.Keys :: CauseCount(a, k) + CauseCount(b, k)
  }

  /** The fields of `Merge` other than the average. */
  function Combine(a: Summary, b: Summary): Summary {
    var longest := if b.maxPauseMs > a.maxPauseMs then b else a;
    Summary(
      a.pauses + b.pauses,
      a.totalPauseMs + b.totalPauseMs,
      longest.maxPauseMs,
      0.0,
      a.fullGCCount + b.fullGCCount,
      a.youngGCCount + b.youngGCCount,
      a.systemGCCount + b.systemGCCount,
      a.systemFullGCCount + b.systemFullGCCount,
      a.evacuationFailures + b.evacuationFailures,
      MergeCauses(a.causes, b.causes),
      longest.longestPause)
  }

  function MergeOf(a: Summary, b: Summary): Summary {
    WithAverage(Combine(a, b))
  }

  /** One `range` loop of `Merge`, whatever order the map is walked in. */
  method AddCauses(into: map<string, nat>, from: map<string, nat>) returns (out: map<string, nat>)
    ensures out == MergeCauses(into, from)
  {
    out := into;
    var todo := from.Keys;
    while todo != {}
      invariant todo <= from.Keys
      invariant out.Keys == into.Keys + (from.Keys - todo)
      invariant forall k :: k in out ==> out[k] == CauseCount(into, k) + if k in todo then 0 else CauseCount(from, k)
      decreases todo
    {
      var k :| k in todo;
      out := out[k := CauseCount(out, k) + from[k]];
      todo := todo - {k};
    }
  }

  /** `Merge` */
  method Merge(a: Summary, b: Summary) returns (out: Summary)
    ensures out == MergeOf(a, b)
  {
    var causes := AddCauses(map[], a.causes);
    causes := AddCauses(causes, b.causes);
    assert causes == MergeCauses(a.causes, b.causes);
    var longest := a;
    if b.maxPauseMs > a.maxPauseMs {
      longest := b;
    }
    out := Summary(
      a.pauses + b.pauses, a.totalPauseMs + b.totalPauseMs, longest.maxPauseMs, 0.0,
      a.fullGCCount + b.fullGCCount, a.youngGCCount + b.youngGCCount, a.systemGCCount + b.systemGCCount,
      a.systemFullGCCount + b.systemFullGCCount, a.evacuationFailures + b.evacuationFailures,
      causes, longest.longestPause);
    if out.pauses > 0 {
      out := out.(avgPauseMs := out.totalPauseMs / out.pauses as real);
    }
  }

  // ---------- the homomorphism ----------

  lemma {:induction false} MergeBump(a: map<string, nat>, b: map<string, nat>, k: string)
    ensures MergeCauses(a, Bump(b, k)) == Bump(MergeCauses(a, b), k)
  {
  }

  /** Accumulating into the second summary is accumulating into the merge. */
  lemma {:induction false} CombineAccumulates(a: Summary, b: Summary, p: Pause, raw: string)
    ensures Combine(a, Accumulate(b, p, raw)) == Accumulate(Combine(a, b), p, raw)
  {
    MergeBump(a.causes, b.causes, p.cause);
  }

  lemma {:induction false} CombineEmpty(a: Summary)
    requires a.avgPauseMs == 0.0 && a.maxPauseMs >= 0.0
    ensures Combine(a, EMPTY) == a
  {
    assert MergeCauses(a.causes, map[]) == a.causes;
  }

  lemma {:induction false} ScanMaxNonNegative(reader: Reader, lines: seq<string>)
    ensures Scan(reader, lines).maxPauseMs >= 0.0
  {
    if lines != [] { ScanMaxNonNegative(reader, lines[..|lines| - 1]); }
  }

  lemma {:induction false} ScanSplits(reader: Reader, x: seq<string>, y: seq<string>)
    ensures Scan(reader, x + y) == Combine(Scan(reader, x), Scan(reader, y))
    decreases |y|
  {
    if y == [] {
      assert x + y == x;
      ScanKeepsNoAverage(reader, x);
      ScanMaxNonNegative(reader, x);
      CombineEmpty(Scan(reader, x));
    } else {
      var n := |y| - 1;
      assert (x + y)[..|x + y| - 1] == x + y[..n];
      ScanSplits(reader, x, y[..n]);
      var p := reader(y[n]);
      if p.Some? { CombineAccumulates(Scan(reader, x), Scan(reader, y[..n]), p.value, y[n]); }
    }
  }

  lemma {:induction false} AverageIgnored(a: Summary, b: Summary)
    ensures MergeOf(WithAverage(a), WithAverage(b)) == MergeOf(a, b)
  {
  }

  /** Parsing a concatenation is merging the two parses, in every field. */
  lemma {:induction false} ParseIsHomomorphism(reader: Reader, x: seq<string>, y: seq<string>)
    ensures ParseLines(reader, x + y) == MergeOf(ParseLines(reader, x), ParseLines(reader, y))
  {
    ScanSplits(reader, x, y);
    AverageIgnored(Scan(reader, x), Scan(reader, y));
  }

  lemma {:induction false} MergeCausesAssociative(a: map<string, nat>, b: map<string, nat>, c: map<string, nat>)
    ensures MergeCauses(MergeCauses(a, b), c) == MergeCauses(a, MergeCauses(b, c))
  {
    forall k ensures CauseCount(MergeCauses(a, b), k) == CauseCount(a, k) + CauseCount(b, k)
      ensures CauseCount(MergeCauses(b, c), k) == CauseCount(b, k) + CauseCount(c, k) {}
  }

  /** `Merge` is associative on all summaries. */
  lemma {:induction false} MergeAssociative(a: Summary, b: Summary, c: Summary)
    ensures MergeOf(MergeOf(a, b), c) == MergeOf(a, MergeOf(b, c))
  {
    MergeCausesAssociative(a.causes, b.causes, c.causes);
  }

  /** The average is the one `Parse` and `Merge` compute. */
  predicate Averaged(s: Summary) {
    s.avgPauseMs == if s.pauses > 0 then s.totalPauseMs / s.pauses as real else 0.0
  }

  /** The empty summary is a right unit exactly for averaged summaries whose maximum is not negative. */
  lemma {:induction false} RightUnit(s: Summary)
    ensures MergeOf(s, EMPTY) == s <==> Averaged(s) && s.maxPauseMs >= 0.0
  {
    assert MergeCauses(s.causes, map[]) == s.causes;
  }

  /** It is a left unit exactly when, besides, no longest pause is recorded with maximum zero. */
  lemma {:induction false} LeftUnit(s: Summary)
    ensures MergeOf(EMPTY, s) == s <==>
              Averaged(s) && (s.maxPauseMs > 0.0 || (s.maxPauseMs == 0.0 && s.longestPause.None?))
  {
    assert MergeCauses(map[], s.causes) == s.causes;
  }

  /** Summaries, which no parse gives, for which it is no unit: an average or a maximum out of step with the rest. */
  lemma {:induction false} UnitsFail(p: Pause)
    ensures var s := EMPTY.(avgPauseMs := 1.0); MergeOf(s, EMPTY) != s && MergeOf(EMPTY, s) != s
    ensures var s := EMPTY.(maxPauseMs := -1.0); MergeOf(s, EMPTY) != s && MergeOf(EMPTY, s) != s
    ensures var s := EMPTY.(longestPause := Some(p)); MergeOf(s, EMPTY) == s && MergeOf(EMPTY, s) != s
  {
    hide MergeOf;
    var late, low, longest := EMPTY.(avgPauseMs := 1.0), EMPTY.(maxPauseMs := -1.0), EMPTY.(longestPause := Some(p));
    RightUnit(late);
    LeftUnit(late);
    RightUnit(low);
    LeftUnit(low);
    RightUnit(longest);
    LeftUnit(longest);
  }

  lemma {:induction false} NoLongestAtZero(reader: Reader, lines: seq<string>)
    ensures Scan(reader, lines).maxPauseMs == 0.0 ==> Scan(reader, lines).longestPause.None?
  {
    if lines != [] {
      NoLongestAtZero(reader, lines[..|lines| - 1]);
      ScanMaxNonNegative(reader, lines[..|lines| - 1]);
    }
  }

  lemma {:induction false} ParsedUnits(reader: Reader, lines: seq<string>)
    ensures MergeOf(EMPTY, ParseLines(reader, lines)) == ParseLines(reader, lines)
    ensures MergeOf(ParseLines(reader, lines), EMPTY) == ParseLines(reader, lines)
  {
    ScanMaxNonNegative(reader, lines);
    NoLongestAtZero(reader, lines);
    LeftUnit(ParseLines(reader, lines));
    RightUnit(ParseLines(reader, lines));
  }

  // ---------- what the fields mean ----------

  ghost function Count(reader: Reader, lines: seq<string>, p: (Pause, string) -> bool): nat {
    if lines == [] then 0
    else
      var n := |lines| - 1;
      Count(reader, lines[..n], p) + One(reader(lines[n]).Some? && p(reader(lines[n]).value, lines[n]))
  }

  ghost function SumMs(reader: Reader, lines: seq<string>): real {
    if lines == [] then 0.0
    else
      var n := |lines| - 1;
      SumMs(reader, lines[..n]) + if reader(lines[n]).Some? then reader(lines[n]).value.pauseMs else 0.0
  }

  /** Line `i` is the first of the longest pauses, and that pause is positive. */
  ghost predicate FirstLongest(reader: Reader, lines: seq<string>, i: nat, p: Pause) {
    && i < |lines| && reader(lines[i]) == Some(p) && p.pauseMs > 0.0
    && (forall j :: 0 <= j < |lines| && reader(lines[j]).Some? ==> reader(lines[j]).value.pauseMs <= p.pauseMs)
    && (forall j :: 0 <= j < i && reader(lines[j]).Some? ==> reader(lines[j]).value.pauseMs < p.pauseMs)
  }

  ghost predicate NonePositive(reader: Reader, lines: seq<string>) {
    forall j :: 0 <= j < |lines| && reader(lines[j]).Some? ==> reader(lines[j]).value.pauseMs <= 0.0
  }

  /** The counters count pauses, each non-empty cause is counted separately, and the average is the total over the number. */
  lemma {:induction false} CountersCount(reader: Reader, lines: seq<string>, cause: string)
    ensures var s := ParseLines(reader, lines);
            && s.pauses == Count(reader, lines, (p, raw) => true)
            && s.totalPauseMs == SumMs(reader, lines)
            && s.avgPauseMs == (if s.pauses > 0 then SumMs(reader, lines) / s.pauses as real else 0.0)
            && s.fullGCCount == Count(reader, lines, (p: Pause, raw) => p.kind == "Full")
            && s.youngGCCount == Count(reader, lines, (p: Pause, raw) => p.kind == "Young" || p.kind == "Mixed")
            && s.systemGCCount == Count(reader, lines, (p: Pause, raw) => Occurs(p.cause, "System.gc"))
            && s.systemFullGCCount == Count(reader, lines, (p: Pause, raw) => Occurs(p.cause, "System.gc") && p.kind == "Full")
            && s.evacuationFailures == Count(reader, lines, (p: Pause, raw) => Occurs(raw, "Evacuation Failure") || Occurs(raw, "to-space exhausted"))
            && (cause in s.causes <==> Count(reader, lines, (p: Pause, raw) => p.cause != "" && p.cause == cause) > 0)
            && (cause in s.causes ==> s.causes[cause] == Count(reader, lines, (p: Pause, raw) => p.cause != "" && p.cause == cause))
  {
    hide Occurs, Contains;
    if lines != [] {
      var last := lines[|lines| - 1];
      CountersCount(reader, lines[..|lines| - 1], cause);
      ContainsExactly(last, "Evacuation Failure");
      ContainsExactly(last, "to-space exhausted");
      if reader(last).Some? { ContainsExactly(reader(last).value.cause, "System.gc"); }
    }
  }

  /** The longest pause is the first one of greatest positive duration, if there is any. */
  lemma {:induction false} LongestIsFirst(reader: Reader, lines: seq<string>)
    ensures var s := ParseLines(reader, lines);
            if s.longestPause.None? then s.maxPauseMs == 0.0 && NonePositive(reader, lines)
            else s.maxPauseMs == s.longestPause.value.pauseMs
                 && exists i :: FirstLongest(reader, lines, i, s.longestPause.value)
  {
    if lines != [] {
      var n := |lines| - 1;
      LongestIsFirst(reader, lines[..n]);
      var s, t := Scan(reader, lines[..n]), Scan(reader, lines);
      assert forall j :: 0 <= j < n ==> lines[..n][j] == lines[j];
      if reader(lines[n]).Some? && reader(lines[n]).value.pauseMs > s.maxPauseMs {
        ScanMaxNonNegative(reader, lines[..n]);
        assert FirstLongest(reader, lines, n, t.longestPause.value);
      } else if s.longestPause.Some? {
        var i :| FirstLongest(reader, lines[..n], i, s.longestPause.value);
        assert FirstLongest(reader, lines, i, s.longestPause.value);
      }
    }
  }

  // ---------- text and tails ----------

  /** The first newline in positions [i, n), or `n`. */
  function LineEnd(s: string, i: nat, n: nat): (j: nat)
    requires i <= n <= |s|
    ensures i <= j <= n
    decreases n - i
  {
    if i == n || s[i] == '\n' then i else LineEnd(s, i + 1, n)
  }

  function DropCR(s: string): string {
    if s != [] && s[|s| - 1] == '\r' then s[..|s| - 1] else s
  }

  /** The lines a `bufio.Scanner` delivers for positions [i, n) of a file. */
  function Lines(s: string, i: nat, n: nat): seq<string>
    requires i <= n <= |s|
    decreases n - i
  {
    if i == n then []
    else
      var j := LineEnd(s, i, n);
      [DropCR(s[i..j])] + Lines(s, if j == n then n else j + 1, n)
  }

  function ParseText(reader: Reader, content: string, i: nat, n: nat): Summary
    requires i <= n <= |content|
  {
    ParseLines(reader, Lines(content, i, n))
  }

  lemma {:induction false} LineEndIsNewline(s: string, i: nat, n: nat)
    requires i <= n <= |s|
    ensures LineEnd(s, i, n) < n ==> s[LineEnd(s, i, n)] == '\n'
    decreases n - i
  {
    if i < n && s[i] != '\n' { LineEndIsNewline(s, i + 1, n); }
  }

  lemma {:induction false} LineEndBefore(s: string, i: nat, k: nat, n: nat)
    requires i < k <= n <= |s| && s[k - 1] == '\n'
    ensures LineEnd(s, i, n) < k && LineEnd(s, i, k) == LineEnd(s, i, n)
    decreases k - i
  {
    if s[i] != '\n' { LineEndBefore(s, i + 1, k, n); }
  }

  /** Cutting a text right after a newline cuts its list of lines. */
  lemma {:induction false} LinesSplit(s: string, i: nat, k: nat, n: nat)
    requires i <= k <= n <= |s| && (i == k || s[k - 1] == '\n')
    ensures Lines(s, i, n) == Lines(s, i, k) + Lines(s, k, n)
    decreases k - i
  {
    hide LineEnd, DropCR;
    if i < k {
      LineEndBefore(s, i, k, n);
      var j := LineEnd(s, i, n);
      LinesSplit(s, j + 1, k, n);
      Regroup(DropCR(s[i..j]), Lines(s, j + 1, k), Lines(s, k, n));
    }
  }

  lemma {:induction false} Regroup(x: string, a: seq<string>, b: seq<string>)
    ensures [x] + (a + b) == ([x] + a) + b
  {
  }

  /** A line as it stands in a list of lines: without its end. */
  predicate Plain(line: string) {
    '\n' !in line && (line != "" ==> line[|line| - 1] != '\r')
  }

  /** A text of lines, each ended by a newline or by a carriage return and a newline, and a last one without an end. */
  ghost function Text(lines: seq<string>, ends: seq<bool>, last: string): string
    requires |ends| == |lines|
  {
    if lines == [] then last
    else lines[0] + (if ends[0] then "\r\n" else "\n") + Text(lines[1..], ends[1..], last)
  }

  lemma {:induction false} LineEndAt(s: string, i: nat, j: nat, n: nat)
    requires i <= j <= n <= |s| && (forall k :: i <= k < j ==> s[k] != '\n') && (j < n ==> s[j] == '\n')
    ensures LineEnd(s, i, n) == j
    decreases j - i
  {
    if i < j { LineEndAt(s, i + 1, j, n); }
  }

  lemma {:induction false} LineEndShift(a: string, b: string, i: nat)
    requires i <= |b|
    ensures LineEnd(a + b, |a| + i, |a + b|) == |a| + LineEnd(b, i, |b|)
    decreases |b| - i
  {
    if i < |b| && b[i] != '\n' { LineEndShift(a, b, i + 1); }
  }

  lemma {:induction false} LinesShift(a: string, b: string, i: nat)
    requires i <= |b|
    ensures Lines(a + b, |a| + i, |a + b|) == Lines(b, i, |b|)
    decreases |b| - i
  {
    hide LineEnd, DropCR;
    if i < |b| {
      var j := LineEnd(b, i, |b|);
      LineEndShift(a, b, i);
      assert (a + b)[|a| + i..|a| + j] == b[i..j];
      if j < |b| { LinesShift(a, b, j + 1); }
    }
  }

  lemma {:induction false} OneLine(line: string, carriage: bool, rest: string)
    requires Plain(line)
    ensures var s := line + (if carriage then "\r\n" else "\n") + rest;
            Lines(s, 0, |s|) == [line] + Lines(rest, 0, |rest|)
  {
    hide LineEnd;
    var first := line + if carriage then "\r\n" else "\n";
    var s, j := first + rest, |first| - 1;
    assert s[..j] == line + if carriage then "\r" else "";
    forall k | 0 <= k < j ensures s[k] != '\n' {
      assert k < |line| ==> s[k] == line[k];
    }
    LineEndAt(s, 0, j, |s|);
    assert s[0..j] == s[..j];
    assert DropCR(s[..j]) == line by {
      if carriage {
        assert s[..j][|line|] == '\r' && s[..j][..|line|] == line;
      } else {
        assert s[..j] == line;
      }
    }
    assert Lines(s, 0, |s|) == [DropCR(s[0..j])] + Lines(s, j + 1, |s|);
    LinesShift(first, rest, 0);
    assert |first| + 0 == j + 1;
  }

  /** The scanner gives back the lines of a text, whichever way each of them is ended. */
  lemma {:induction false} LinesRoundTrip(lines: seq<string>, ends: seq<bool>, last: string)
    requires |ends| == |lines| && Plain(last) && forall k :: 0 <= k < |lines| ==> Plain(lines[k])
    ensures var s := Text(lines, ends, last); Lines(s, 0, |s|) == lines + if last == "" then [] else [last]
  {
    hide LineEnd;
    if lines == [] {
      LineEndAt(last, 0, |last|, |last|);
      assert last[0..|last|] == last;
      assert lines == [];
    } else {
      LinesRoundTrip(lines[1..], ends[1..], last);
      OneLine(lines[0], ends[0], Text(lines[1..], ends[1..], last));
      assert lines == [lines[0]] + lines[1..];
    }
  }

  /** Where `ParseFileTail` starts parsing: after the first newline at or after the seek position. */
  function TailStart(content: string, maxBytes: int): (k: nat)
    ensures k <= |content|
  {
    if maxBytes <= 0 || |content| <= maxBytes then 0
    else
      var j := LineEnd(content, |content| - maxBytes, |content|);
      if j == |content| then j else j + 1
  }

  /**
   The whole log when it is short enough or no limit is set; otherwise what follows the first newline at or
   after the last `maxBytes` bytes begin, and nothing when there is none.
   */
  lemma {:induction false} TailStartExactly(content: string, maxBytes: int)
    ensures var k := TailStart(content, maxBytes);
            if maxBytes <= 0 || |content| <= maxBytes then k == 0
            else
              var seek := |content| - maxBytes;
              && seek <= k && (forall j :: seek <= j < k - 1 ==> content[j] != '\n')
              && ((k > seek && content[k - 1] == '\n') || (k == |content| && forall j :: seek <= j < |content| ==> content[j] != '\n'))
  {
    if 0 < maxBytes < |content| {
      LineEndIsNewline(content, |content| - maxBytes, |content|);
      NoNewlineBefore(content, |content| - maxBytes, |content|);
    }
  }

  lemma {:induction false} NoNewlineBefore(s: string, i: nat, n: nat)
    requires i <= n <= |s|
    ensures forall j :: i <= j < LineEnd(s, i, n) ==> s[j] != '\n'
    decreases n - i
  {
    if i < n && s[i] != '\n' { NoNewlineBefore(s, i + 1, n); }
  }

  datatype LogFile = Missing | Special | Regular(content: string)

  /** `ParseFileTail`; `None` stands for its error. Only a log longer than `maxBytes` is sought in. */
  method ParseFileTail(reader: Reader, file: LogFile, maxBytes: int, statFails: bool, seekFails: bool) returns (r: Option<Summary>)
    ensures r.None? <==> file.Missing? || statFails || (seekFails && file.Regular? && 0 < maxBytes < |file.content|)
    ensures r.Some? && file.Special? ==> r.value == EMPTY
    ensures r.Some? && file.Regular? ==>
              r.value == ParseText(reader, file.content, TailStart(file.content, maxBytes), |file.content|)
  {
    match file
    case Missing => r := None;
    case Special => r := if statFails then None else Some(EMPTY);
    case Regular(content) =>
      if statFails { return None; }
      if maxBytes <= 0 || |content| <= maxBytes {
        var s := Parse(reader, Lines(content, 0, |content|));
        return Some(s);
      }
      if seekFails { return None; }
      var j := LineEnd(content, |content| - maxBytes, |content|);
      if j == |content| { return Some(EMPTY); }
      var s := Parse(reader, Lines(content, j + 1, |content|));
      r := Some(s);
  }

  /** Merging the tail after the parse of the skipped part gives the parse of the whole log. */
  lemma {:induction false} TailCompletes(reader: Reader, content: string, maxBytes: int)
    ensures var k, n := TailStart(content, maxBytes), |content|;
            ParseText(reader, content, 0, n)
            == MergeOf(ParseText(reader, content, 0, k), ParseText(reader, content, k, n))
  {
    var k, n := TailStart(content, maxBytes), |content|;
    if maxBytes > 0 && n > maxBytes { LineEndIsNewline(content, n - maxBytes, n); }
    if k == 0 || content[k - 1] == '\n' {
      LinesSplit(content, 0, k, n);
      ParseIsHomomorphism(reader, Lines(content, 0, k), Lines(content, k, n));
    } else {
      ParsedUnits(reader, Lines(content, 0, n));
    }
  }
}
