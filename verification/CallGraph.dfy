/**
 Folding a `sample` call graph into self-time stacks (internal/flamegraph/fold.go): an
 indentation-driven stack machine against the forest the indentation denotes. Lines arrive
 already split into indent width, sample count and symbol.
 */
module CallGraph {

  type Path = seq<string>

  datatype Line = Line(indent: nat, count: nat, sym: string)

  /** A line of the report, as the patterns of `Fold` see it. */
  datatype RawLine = Start | Frame(line: Line) | Blank | Text

  datatype Folded = Folded(frames: Path, count: nat)

  datatype FoldNode = FoldNode(indent: nat, sym: string, count: nat, childSum: nat)

  /** A forest of line numbers: first tree's root and children, then the trees beside it. */
  datatype Forest = Empty | Node(line: nat, kids: Forest, rest: Forest)

  /** The frame lines of the call-graph section: after its header, up to the first other text. */
  function GraphLines(raw: seq<RawLine>, inGraph: bool): seq<Line> {
    if raw == [] then []
    else if !inGraph then GraphLines(raw[1..], raw[0].Start?)
    else match raw[0]
      case Frame(line) => [line] + GraphLines(raw[1..], true)
      case Blank => GraphLines(raw[1..], true)
      case _ => []
  }

  // ---------- what the indentation denotes ----------

  /** The line a given line hangs from is the nearest earlier one of smaller indent. */
  ghost predicate IsParent(lines: seq<Line>, i: nat, p: int)
    requires i < |lines|
  {
    && -1 <= p < i
    && (p >= 0 ==> lines[p].indent < lines[i].indent)
    && forall m :: p < m < i ==> lines[m].indent >= lines[i].indent
  }

  ghost function ParentFrom(lines: seq<Line>, i: nat, j: int): (p: int)
    requires -1 <= j < i < |lines|
    ensures -1 <= p <= j
    decreases j + 1
  {
    if j < 0 || lines[j].indent < lines[i].indent then j else ParentFrom(lines, i, j - 1)
  }

  ghost function Parent(lines: seq<Line>, i: nat): (p: int)
    requires i < |lines|
    ensures -1 <= p < i
  {
    ParentFrom(lines, i, i - 1)
  }

  lemma {:induction false} ParentFromFits(lines: seq<Line>, i: nat, j: int)
    requires -1 <= j < i < |lines| && forall m :: j < m < i ==> lines[m].indent >= lines[i].indent
    ensures IsParent(lines, i, ParentFrom(lines, i, j))
    decreases j + 1
  {
    if j >= 0 && lines[j].indent >= lines[i].indent { ParentFromFits(lines, i, j - 1); }
  }

  lemma {:induction false} ParentFromUnique(lines: seq<Line>, i: nat, j: int, p: int)
    requires i < |lines| && IsParent(lines, i, p) && p <= j < i
    ensures ParentFrom(lines, i, j) == p
    decreases j + 1
  {
    if p < j { ParentFromUnique(lines, i, j - 1, p); }
  }

  lemma {:induction false} ParentCharacterized(lines: seq<Line>, i: nat, p: int)
    requires i < |lines|
    ensures IsParent(lines, i, p) <==> Parent(lines, i) == p
  {
    ParentFromFits(lines, i, i - 1);
    if IsParent(lines, i, p) { ParentFromUnique(lines, i, i - 1, p); }
  }

  /** The symbols from the root down to a line; no symbols for the position -1 above the roots. */
  ghost function PathOf(lines: seq<Line>, i: int): Path
    requires -1 <= i < |lines|
    decreases i + 1
  {
    if i < 0 then [] else PathOf(lines, Parent(lines, i)) + [lines[i].sym]
  }

  /** Total count of the lines in [i, j) that hang from `p`, where -1 stands above the roots. */
  ghost function ChildSum(lines: seq<Line>, p: int, i: nat, j: nat): nat
    requires i <= j <= |lines|
    decreases j - i
  {
    if i == j then 0
    else (if Parent(lines, i) == p then lines[i].count else 0) + ChildSum(lines, p, i + 1, j)
  }

  /** Total count of the lines in [i, j) whose path is `path`. */
  ghost function InputAt(lines: seq<Line>, path: Path, i: nat, j: nat): nat
    requires i <= j <= |lines|
    decreases j - i
  {
    if i == j then 0
    else (if PathOf(lines, i) == path then lines[i].count else 0) + InputAt(lines, path, i + 1, j)
  }

  /** No line is outweighed by the lines hanging from it. */
  ghost predicate Balanced(lines: seq<Line>) {
    forall q :: 0 <= q < |lines| ==> Carries(lines, q, 0, |lines|)
  }

  ghost predicate Carries(lines: seq<Line>, q: nat, i: nat, j: nat)
    requires q < |lines| && i <= j <= |lines|
  {
    ChildSum(lines, q, i, j) <= lines[q].count
  }

  // ---------- the forest ----------

  /** The trees made of the lines from `i` on that are deeper than `indent`, and where they end. */
  ghost function Grow(lines: seq<Line>, i: nat, indent: int): (r: (Forest, nat))
    requires i <= |lines|
    ensures i <= r.1 <= |lines|
    decreases |lines| - i
  {
    if i == |lines| || lines[i].indent <= indent then (Empty, i)
    else
      var (kids, j) := Grow(lines, i + 1, lines[i].indent);
      var (rest, k) := Grow(lines, j, indent);
      (Node(i, kids, rest), k)
  }

  ghost function CallForest(lines: seq<Line>): Forest {
    Grow(lines, 0, -1).0
  }

  /** The node numbers are i, i+1, ... in pre-order, and all are line numbers. */
  ghost predicate InOrder(lines: seq<Line>, f: Forest, i: nat) {
    i <= |lines| &&
    (f.Empty? || (f.line == i < |lines| && InOrder(lines, f.kids, i + 1) && InOrder(lines, f.rest, End(f.kids, i + 1))))
  }

  ghost function End(f: Forest, i: nat): (j: nat)
    ensures i <= j
    ensures f.Node? ==> i < j
  {
    if f.Empty? then i else End(f.rest, End(f.kids, i + 1))
  }

  /** Every node's structural parent is the line it hangs from. */
  ghost predicate Hangs(lines: seq<Line>, f: Forest, p: int) {
    f.Empty? ||
    (f.line < |lines| && Parent(lines, f.line) == p && Hangs(lines, f.kids, f.line) && Hangs(lines, f.rest, p))
  }

  lemma {:induction false} GrowInOrder(lines: seq<Line>, i: nat, indent: int)
    requires i <= |lines|
    ensures InOrder(lines, Grow(lines, i, indent).0, i) && End(Grow(lines, i, indent).0, i) == Grow(lines, i, indent).1
    decreases |lines| - i
  {
    if i < |lines| && lines[i].indent > indent {
      GrowInOrder(lines, i + 1, lines[i].indent);
      GrowInOrder(lines, Grow(lines, i + 1, lines[i].indent).1, indent);
    }
  }

  lemma {:induction false} GrowDeeper(lines: seq<Line>, i: nat, indent: int)
    requires i <= |lines|
    ensures var j := Grow(lines, i, indent).1;
            (forall m :: i <= m < j ==> lines[m].indent > indent) && (j < |lines| ==> lines[j].indent <= indent)
    decreases |lines| - i
  {
    if i < |lines| && lines[i].indent > indent {
      GrowDeeper(lines, i + 1, lines[i].indent);
      GrowDeeper(lines, Grow(lines, i + 1, lines[i].indent).1, indent);
    }
  }

  lemma {:induction false} GrowHangs(lines: seq<Line>, i: nat, p: int)
    requires -1 <= p < i <= |lines|
    requires i < |lines| ==> forall m :: p < m < i ==> lines[m].indent >= lines[i].indent
    ensures Hangs(lines, Grow(lines, i, if p < 0 then -1 else lines[p].indent).0, p)
    decreases |lines| - i
  {
    var indent := if p < 0 then -1 else lines[p].indent;
    if i < |lines| && lines[i].indent > indent {
      ParentCharacterized(lines, i, p);
      GrowHangs(lines, i + 1, i);
      GrowDeeper(lines, i + 1, lines[i].indent);
      GrowHangs(lines, Grow(lines, i + 1, lines[i].indent).1, p);
    }
  }

  lemma {:induction false} GrowAll(lines: seq<Line>, i: nat)
    requires i <= |lines|
    ensures Grow(lines, i, -1).1 == |lines|
  {
    GrowDeeper(lines, i, -1);
  }

  /** The forest holds every line once, in input order, each below the line it hangs from. */
  lemma {:induction false} ForestIsParentRelation(lines: seq<Line>)
    ensures InOrder(lines, CallForest(lines), 0) && End(CallForest(lines), 0) == |lines|
    ensures Hangs(lines, CallForest(lines), -1)
  {
    GrowInOrder(lines, 0, -1);
    GrowAll(lines, 0);
    GrowHangs(lines, 0, -1);
  }

  // ---------- weights ----------

  ghost function RootSum(lines: seq<Line>, f: Forest): nat {
    if f.Empty? || f.line >= |lines| then 0 else lines[f.line].count + RootSum(lines, f.rest)
  }

  ghost predicate WellWeighted(lines: seq<Line>, f: Forest) {
    f.Empty? ||
    (f.line < |lines| && RootSum(lines, f.kids) <= lines[f.line].count
     && WellWeighted(lines, f.kids) && WellWeighted(lines, f.rest))
  }

  lemma {:induction false} ChildSumSplit(lines: seq<Line>, p: int, i: nat, j: nat, k: nat)
    requires i <= j <= k <= |lines|
    ensures ChildSum(lines, p, i, k) == ChildSum(lines, p, i, j) + ChildSum(lines, p, j, k)
    decreases j - i
  {
    if i < j { ChildSumSplit(lines, p, i + 1, j, k); }
  }

  lemma {:induction false} EndInRange(lines: seq<Line>, f: Forest, i: nat)
    requires InOrder(lines, f, i)
    ensures End(f, i) <= |lines|
    decreases f
  {
    if f.Node? {
      EndInRange(lines, f.kids, i + 1);
      EndInRange(lines, f.rest, End(f.kids, i + 1));
    }
  }

  /** The range of a non-empty forest, cut into its first root, that root's subtree and the rest. */
  lemma {:induction false} ChildSumCut(lines: seq<Line>, f: Forest, i: nat, q: int)
    requires InOrder(lines, f, i) && f.Node?
    ensures End(f.kids, i + 1) <= End(f, i) <= |lines|
    ensures ChildSum(lines, q, i, End(f, i))
         == (if Parent(lines, i) == q then lines[i].count else 0)
            + ChildSum(lines, q, i + 1, End(f.kids, i + 1)) + ChildSum(lines, q, End(f.kids, i + 1), End(f, i))
  {
    EndInRange(lines, f, i);
    EndInRange(lines, f.kids, i + 1);
    ChildSumSplit(lines, q, i + 1, End(f.kids, i + 1), End(f, i));
  }

  /** Over a forest hanging from `p`: its roots hang from `p`, and nothing hangs from outside it. */
  lemma {:induction false} ChildSumOutside(lines: seq<Line>, f: Forest, i: nat, p: int, q: int)
    requires InOrder(lines, f, i) && Hangs(lines, f, p) && (q < i || q >= End(f, i))
    ensures End(f, i) <= |lines|
    ensures ChildSum(lines, q, i, End(f, i)) == if q == p < i then RootSum(lines, f) else 0
    decreases f
  {
    EndInRange(lines, f, i);
    if f.Node? {
      ChildSumCut(lines, f, i, q);
      ChildSumOutside(lines, f.kids, i + 1, i, q);
      ChildSumOutside(lines, f.rest, End(f.kids, i + 1), p, q);
    }
  }

  /** The balance of the lines of a forest, seen from its own range, is the forest's balance. */
  lemma {:induction false} CarriesIsWellWeighted(lines: seq<Line>, f: Forest, i: nat, p: int)
    requires InOrder(lines, f, i) && Hangs(lines, f, p) && p < i
    ensures End(f, i) <= |lines|
    ensures (forall q :: i <= q < End(f, i) ==> Carries(lines, q, i, End(f, i))) <==> WellWeighted(lines, f)
    decreases f
  {
    EndInRange(lines, f, i);
    if f.Node? {
      var mid, end := End(f.kids, i + 1), End(f, i);
      EndInRange(lines, f.kids, i + 1);
      CarriesIsWellWeighted(lines, f.kids, i + 1, i);
      CarriesIsWellWeighted(lines, f.rest, mid, p);
      forall q | i <= q < end
        ensures Carries(lines, q, i, end) <==>
                  if q == i then RootSum(lines, f.kids) <= lines[i].count
                  else if q < mid then Carries(lines, q, i + 1, mid) else Carries(lines, q, mid, end)
      {
        ChildSumCut(lines, f, i, q);
        if q == i || q >= mid { ChildSumOutside(lines, f.kids, i + 1, i, q); }
        if q < mid { ChildSumOutside(lines, f.rest, mid, p, q); }
      }
      if forall q :: i <= q < end ==> Carries(lines, q, i, end) {
        assert Carries(lines, i, i, end);
        var next := i + 1;
        forall q | next <= q < mid ensures Carries(lines, q, next, mid) { assert Carries(lines, q, i, end); }
        forall q | mid <= q < end ensures Carries(lines, q, mid, end) { assert Carries(lines, q, i, end); }
      }
    }
  }

  lemma {:induction false} BalancedIsWellWeighted(lines: seq<Line>)
    ensures Balanced(lines) <==> WellWeighted(lines, CallForest(lines))
  {
    ForestIsParentRelation(lines);
    CarriesIsWellWeighted(lines, CallForest(lines), 0, -1);
  }

  // ---------- self times ----------

  /** Appends to `acc` the self times of a forest, children first: what folding is meant to emit. */
  ghost function SelfTimes(lines: seq<Line>, acc: seq<Folded>, f: Forest, prefix: Path): seq<Folded>
    decreases f
  {
    if f.Empty? || f.line >= |lines| then acc
    else
      var here := prefix + [lines[f.line].sym];
      var inner := SelfTimes(lines, acc, f.kids, here);
      SelfTimes(lines, WithSelf(inner, here, lines[f.line].count, RootSum(lines, f.kids)), f.rest, prefix)
  }

  /** What `Fold` is meant to return for the lines of a call graph. */
  ghost function FoldOf(lines: seq<Line>): seq<Folded> {
    SelfTimes(lines, [], CallForest(lines), [])
  }

  function WithSelf(acc: seq<Folded>, here: Path, count: nat, childSum: nat): seq<Folded> {
    if count > childSum then acc + [Folded(here, count - childSum)] else acc
  }

  // ---------- the stack machine ----------

  ghost predicate Increasing(stack: seq<FoldNode>) {
    forall i, j :: 0 <= i < j < |stack| ==> stack[i].indent < stack[j].indent
  }

  /** `path`: the symbols on the stack. */
  function Syms(stack: seq<FoldNode>): (p: Path) {
    if stack == [] then [] else Syms(stack[..|stack| - 1]) + [stack[|stack| - 1].sym]
  }

  function Top(stack: seq<FoldNode>): FoldNode
    requires stack != []
  {
    stack[|stack| - 1]
  }

  function Under(stack: seq<FoldNode>): seq<FoldNode>
    requires stack != []
  {
    stack[..|stack| - 1]
  }

  function AddToTop(stack: seq<FoldNode>, n: nat): (r: seq<FoldNode>)
    ensures |r| == |stack|
  {
    if stack == [] then [] else Under(stack) + [Top(stack).(childSum := Top(stack).childSum + n)]
  }

  /** `pop`: emit the top's self time and charge its count to the entry below. */
  function Popped(stack: seq<FoldNode>): seq<FoldNode>
    requires stack != []
  {
    AddToTop(Under(stack), Top(stack).count)
  }

  function PopInto(folded: seq<Folded>, stack: seq<FoldNode>): seq<Folded>
    requires stack != []
  {
    WithSelf(folded, Syms(stack), Top(stack).count, Top(stack).childSum)
  }

  function Pushed(stack: seq<FoldNode>, line: Line): seq<FoldNode> {
    stack + [FoldNode(line.indent, line.sym, line.count, 0)]
  }

  /** What the machine ends with: per line pops then a push, and pops at the end. */
  ghost function Run(folded: seq<Folded>, stack: seq<FoldNode>, lines: seq<Line>, i: nat): seq<Folded>
    requires i <= |lines|
    decreases |lines| - i, |stack|
  {
    if stack != [] && (i == |lines| || Top(stack).indent >= lines[i].indent) then
      Run(PopInto(folded, stack), Popped(stack), lines, i)
    else if i < |lines| then Run(folded, Pushed(stack, lines[i]), lines, i + 1)
    else folded
  }

  lemma {:induction false} AddTwice(stack: seq<FoldNode>, m: nat, n: nat)
    ensures AddToTop(AddToTop(stack, m), n) == AddToTop(stack, m + n)
    ensures AddToTop(stack, 0) == stack
    ensures Syms(AddToTop(stack, m)) == Syms(stack)
    ensures stack != [] ==> AddToTop(stack, m) != [] && Top(AddToTop(stack, m)).indent == Top(stack).indent
    ensures stack == [] ==> AddToTop(stack, m) == []
  {
    if stack != [] { assert Under(AddToTop(stack, m)) == Under(stack); }
  }

  lemma {:induction false} RunPush(folded: seq<Folded>, stack: seq<FoldNode>, lines: seq<Line>, i: nat)
    requires i < |lines| && (stack == [] || Top(stack).indent < lines[i].indent)
    ensures Run(folded, stack, lines, i) == Run(folded, Pushed(stack, lines[i]), lines, i + 1)
    ensures Syms(Pushed(stack, lines[i])) == Syms(stack) + [lines[i].sym]
  {
    assert Under(Pushed(stack, lines[i])) == stack;
  }

  lemma {:induction false} RunPop(folded: seq<Folded>, stack: seq<FoldNode>, line: Line, n: nat, lines: seq<Line>, j: nat)
    requires j <= |lines| && (j == |lines| || lines[j].indent <= line.indent)
    ensures Run(folded, AddToTop(Pushed(stack, line), n), lines, j)
         == Run(WithSelf(folded, Syms(stack) + [line.sym], line.count, n), AddToTop(stack, line.count), lines, j)
  {
    assert Under(Pushed(stack, line)) == stack;
    var full := AddToTop(Pushed(stack, line), n);
    assert Under(full) == stack && Top(full).count == line.count && Top(full).childSum == n;
  }

  /** The lines deeper than the top of the stack act as one child forest of that top. */
  lemma {:induction false} RunForest(
      folded: seq<Folded>, stack: seq<FoldNode>, prefix: Path, lines: seq<Line>, i: nat, indent: int)
    requires i <= |lines| && indent == (if stack == [] then -1 else Top(stack).indent) && prefix == Syms(stack)
    ensures var (f, j) := Grow(lines, i, indent);
            Run(folded, stack, lines, i)
            == Run(SelfTimes(lines, folded, f, prefix), AddToTop(stack, RootSum(lines, f)), lines, j)
    decreases |lines| - i
  {
    if i < |lines| && lines[i].indent > indent {
      RunNode(folded, stack, prefix, lines, i, indent);
    } else {
      AddTwice(stack, 0, 0);
    }
  }

  /** One line and everything below it: its subtree is emitted, then its own self time. */
  lemma {:induction false} RunTree(
      folded: seq<Folded>, stack: seq<FoldNode>, prefix: Path, lines: seq<Line>, i: nat, indent: int)
    requires indent == (if stack == [] then -1 else Top(stack).indent) && prefix == Syms(stack)
    requires i < |lines| && lines[i].indent > indent
    ensures var (kids, j) := Grow(lines, i + 1, lines[i].indent);
            var here := prefix + [lines[i].sym];
            Run(folded, stack, lines, i)
            == Run(WithSelf(SelfTimes(lines, folded, kids, here), here, lines[i].count, RootSum(lines, kids)),
                   AddToTop(stack, lines[i].count), lines, j)
    decreases |lines| - i, 0
  {
    var line := lines[i];
    var (kids, j) := Grow(lines, i + 1, line.indent);
    var here := prefix + [line.sym];
    RunPush(folded, stack, lines, i);
    RunForest(folded, Pushed(stack, line), here, lines, i + 1, line.indent);
    GrowDeeper(lines, i + 1, line.indent);
    RunPop(SelfTimes(lines, folded, kids, here), stack, line, RootSum(lines, kids), lines, j);
  }

  lemma {:induction false} RunNode(
      folded: seq<Folded>, stack: seq<FoldNode>, prefix: Path, lines: seq<Line>, i: nat, indent: int)
    requires indent == (if stack == [] then -1 else Top(stack).indent) && prefix == Syms(stack)
    requires i < |lines| && lines[i].indent > indent
    ensures var (f, j) := Grow(lines, i, indent);
            Run(folded, stack, lines, i)
            == Run(SelfTimes(lines, folded, f, prefix), AddToTop(stack, RootSum(lines, f)), lines, j)
    decreases |lines| - i, 1
  {
    hide Run, AddToTop, Syms, WithSelf, Top;
    var (kids, j) := Grow(lines, i + 1, lines[i].indent);
    var rest := Grow(lines, j, indent).0;
    var here, charged := prefix + [lines[i].sym], AddToTop(stack, lines[i].count);
    var after := WithSelf(SelfTimes(lines, folded, kids, here), here, lines[i].count, RootSum(lines, kids));
    RunTree(folded, stack, prefix, lines, i, indent);
    AddTwice(stack, lines[i].count, RootSum(lines, rest));
    RunForest(after, charged, prefix, lines, j, indent);
  }

  /** The machine emits exactly the post-order self times of the denoted forest. */
  lemma {:induction false} RunIsSelfTimes(lines: seq<Line>)
    ensures Run([], [], lines, 0) == FoldOf(lines)
  {
    RunForest([], [], [], lines, 0, -1);
    GrowAll(lines, 0);
  }

  lemma {:induction false} PoppedIncreasing(stack: seq<FoldNode>)
    requires stack != [] && Increasing(stack)
    ensures Increasing(Popped(stack))
  {
  }

  lemma {:induction false} NextLine(raw: seq<RawLine>, i: nat, inGraph: bool)
    requires i < |raw|
    ensures GraphLines(raw[i..], inGraph) ==
              if !inGraph then GraphLines(raw[i + 1..], raw[i].Start?)
              else if raw[i].Frame? then [raw[i].line] + GraphLines(raw[i + 1..], true)
              else if raw[i].Blank? then GraphLines(raw[i + 1..], true)
              else []
  {
    assert raw[i..][0] == raw[i] && raw[i..][1..] == raw[i + 1..];
  }

  lemma {:induction false} FrameLine(raw: seq<RawLine>, i: nat, lines: seq<Line>, k: nat)
    requires i < |raw| && k <= |lines| && raw[i].Frame?
    requires lines[k..] == GraphLines(raw[i..], true)
    ensures k < |lines| && lines[k] == raw[i].line && lines[k + 1..] == GraphLines(raw[i + 1..], true)
  {
    NextLine(raw, i, true);
    assert lines[k] == lines[k..][0] && lines[k + 1..] == lines[k..][1..];
  }

  /** One frame line: pop every entry at least as deep, then push. */
  method PushLine(folded0: seq<Folded>, stack0: seq<FoldNode>, line: Line, ghost lines: seq<Line>, ghost k: nat)
    returns (folded: seq<Folded>, stack: seq<FoldNode>)
    requires Increasing(stack0) && k < |lines| && lines[k] == line
    ensures Increasing(stack)
    ensures Run(folded, stack, lines, k + 1) == Run(folded0, stack0, lines, k)
  {
    folded, stack := folded0, stack0;
    while stack != [] && Top(stack).indent >= line.indent
      invariant Increasing(stack)
      invariant Run(folded, stack, lines, k) == Run(folded0, stack0, lines, k)
      decreases |stack|
    {
      PoppedIncreasing(stack);
      folded, stack := PopInto(folded, stack), Popped(stack);
    }
    stack := Pushed(stack, line);
  }

  /** The end of the report: pop everything. */
  method Unwind(folded0: seq<Folded>, stack0: seq<FoldNode>, ghost lines: seq<Line>) returns (folded: seq<Folded>)
    ensures folded == Run(folded0, stack0, lines, |lines|)
  {
    folded := folded0;
    var stack := stack0;
    while stack != []
      invariant Run(folded, stack, lines, |lines|) == Run(folded0, stack0, lines, |lines|)
      decreases |stack|
    {
      folded, stack := PopInto(folded, stack), Popped(stack);
    }
  }

  /** `Fold`: skip to the call graph, fold its lines, then empty the stack. */
  method Fold(raw: seq<RawLine>) returns (folded: seq<Folded>)
    ensures folded == FoldOf(GraphLines(raw, false))
  {
    hide Run, FoldOf;
    folded := [];
    var stack: seq<FoldNode> := [];
    var inGraph, ended := false, false;
    var i := 0;
    ghost var lines, k: nat := GraphLines(raw, false), 0;
    assert raw[0..] == raw;
    while i < |raw| && !ended
      invariant 0 <= i <= |raw| && k <= |lines|
      invariant Increasing(stack)
      invariant lines[k..] == if ended then [] else GraphLines(raw[i..], inGraph)
      invariant Run(folded, stack, lines, k) == Run([], [], lines, 0)
    {
      NextLine(raw, i, inGraph);
      if !inGraph {
        inGraph := raw[i].Start?;
      } else if raw[i].Frame? {
        FrameLine(raw, i, lines, k);
        folded, stack := PushLine(folded, stack, raw[i].line, lines, k);
        k := k + 1;
      } else if !raw[i].Blank? {
        ended := true;
      }
      i := i + 1;
    }
    assert k == |lines|;
    folded := Unwind(folded, stack, lines);
    RunIsSelfTimes(lines);
  }

  // ---------- totals ----------

  ghost function Total(folded: seq<Folded>): nat {
    if folded == [] then 0 else Total(folded[..|folded| - 1]) + folded[|folded| - 1].count
  }

  lemma {:induction false} TotalWithSelf(acc: seq<Folded>, here: Path, count: nat, childSum: nat)
    ensures Total(WithSelf(acc, here, count, childSum))
         == Total(acc) + if count > childSum then count - childSum else 0
  {
    if count > childSum {
      assert WithSelf(acc, here, count, childSum)[..|acc|] == acc;
    }
  }

  /** Self times sum to at least the root counts, and to exactly them when no node is outweighed. */
  lemma {:induction false} EmittedTotal(lines: seq<Line>, acc: seq<Folded>, f: Forest, prefix: Path, i: nat)
    requires InOrder(lines, f, i)
    ensures Total(SelfTimes(lines, acc, f, prefix)) >= Total(acc) + RootSum(lines, f)
    ensures Total(SelfTimes(lines, acc, f, prefix)) == Total(acc) + RootSum(lines, f) <==> WellWeighted(lines, f)
    decreases f
  {
    if f.Node? {
      var here, sum := prefix + [lines[f.line].sym], RootSum(lines, f.kids);
      var inner := SelfTimes(lines, acc, f.kids, here);
      EmittedTotal(lines, acc, f.kids, here, i + 1);
      TotalWithSelf(inner, here, lines[f.line].count, sum);
      EmittedTotal(lines, WithSelf(inner, here, lines[f.line].count, sum), f.rest, prefix, End(f.kids, i + 1));
    }
  }

  /** The folded total against the root lines of the report. */
  lemma {:induction false} FoldedTotal(lines: seq<Line>)
    ensures var total := Total(FoldOf(lines));
            && total >= ChildSum(lines, -1, 0, |lines|)
            && (total == ChildSum(lines, -1, 0, |lines|) <==> Balanced(lines))
  {
    ForestIsParentRelation(lines);
    EmittedTotal(lines, [], CallForest(lines), [], 0);
    ChildSumOutside(lines, CallForest(lines), 0, -1, -1);
    BalancedIsWellWeighted(lines);
  }
}
