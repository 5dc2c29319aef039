/**
 The merged tree of internal/flamegraph/render.go: `child` and the building loop of `RenderSVG`,
 and the theorem that folding a call graph and rebuilding it preserves every inclusive count.
 */
module FlameTrie {
  import opened Basics
  import opened CallGraph

  datatype Trie = Trie(sym: string, count: nat, order: seq<string>, children: map<string, Trie>)

  function NewNode(sym: string): Trie {
    Trie(sym, 0, [], map[])
  }

  /** `child`: the named child, made and appended to the order when missing. */
  function ChildOf(n: Trie, sym: string): Trie {
    if sym in n.children then n.children[sym] else NewNode(sym)
  }

  function OrderWith(n: Trie, sym: string): seq<string> {
    if sym in n.children then n.order else n.order + [sym]
  }

  /** One folded stack: `c` more samples at this node and at every node down the frames. */
  function Add(n: Trie, frames: Path, c: nat): (m: Trie)
    ensures m.count == n.count + c && m.sym == n.sym
    decreases |frames|
  {
    if frames == [] then n.(count := n.count + c)
    else
      n.(count := n.count + c,
         order := OrderWith(n, frames[0]),
         children := n.children[frames[0] := Add(ChildOf(n, frames[0]), frames[1..], c)])
  }

  function Build(folded: seq<Folded>): Trie {
    if folded == [] then NewNode("root")
    else
      var last := folded[|folded| - 1];
      Add(Build(folded[..|folded| - 1]), last.frames, last.count)
  }

  method BuildTrie(folded: seq<Folded>) returns (root: Trie)
    ensures root == Build(folded)
  {
    root := NewNode("root");
    var i := 0;
    while i < |folded|
      invariant 0 <= i <= |folded|
      invariant root == Build(folded[..i])
    {
      root := Add(root, folded[i].frames, folded[i].count);
      assert folded[..i + 1][..i] == folded[..i];
      i := i + 1;
    }
    assert folded[..|folded|] == folded;
  }

  // ---------- what the trie holds ----------

  function Get(n: Trie, path: Path): Option<nat>
    decreases |path|
  {
    if path == [] then Some(n.count)
    else if path[0] in n.children then Get(n.children[path[0]], path[1..])
    else None
  }

  lemma {:induction false} GetStep(n: Trie, s: string, q: Path)
    ensures Get(n, [s] + q) == if s in n.children then Get(n.children[s], q) else None
  {
    assert ([s] + q)[1..] == q;
  }

  function OrZero(o: Option<nat>): nat {
    if o.Some? then o.value else 0
  }

  /** Samples of the folded stacks that pass through `path`. */
  ghost function Inclusive(folded: seq<Folded>, path: Path): nat {
    if folded == [] then 0
    else
      var last := folded[|folded| - 1];
      Inclusive(folded[..|folded| - 1], path) + if path <= last.frames then last.count else 0
  }

  /** Some folded stack passes through `path`. */
  ghost predicate Visited(folded: seq<Folded>, path: Path) {
    folded != [] && (path <= folded[|folded| - 1].frames || Visited(folded[..|folded| - 1], path))
  }

  lemma {:induction false} PrefixTail(path: Path, frames: Path)
    requires path != []
    ensures path <= frames <==> frames != [] && path[0] == frames[0] && path[1..] <= frames[1..]
  {
    if frames != [] {
      assert path == [path[0]] + path[1..] && frames == [frames[0]] + frames[1..];
    }
  }

  lemma {:induction false} AddGet(n: Trie, frames: Path, c: nat, path: Path)
    ensures Get(Add(n, frames, c), path)
         == if path <= frames then Some(OrZero(Get(n, path)) + c) else Get(n, path)
    decreases |path|
  {
    if path != [] {
      PrefixTail(path, frames);
      if frames != [] && path[0] == frames[0] {
        AddGet(ChildOf(n, frames[0]), frames[1..], c, path[1..]);
      }
    }
  }

  /** The trie node at a path carries the inclusive total of the stacks through it. */
  lemma {:induction false} BuildHolds(folded: seq<Folded>, path: Path)
    ensures Get(Build(folded), path)
         == if path == [] || Visited(folded, path) then Some(Inclusive(folded, path)) else None
  {
    if folded != [] {
      var n, last := |folded| - 1, folded[|folded| - 1];
      BuildHolds(folded[..n], path);
      AddGet(Build(folded[..n]), last.frames, last.count, path);
      InclusiveUnvisited(folded[..n], path);
    }
  }

  lemma {:induction false} InclusiveUnvisited(folded: seq<Folded>, path: Path)
    ensures !Visited(folded, path) ==> Inclusive(folded, path) == 0
  {
    if folded != [] { InclusiveUnvisited(folded[..|folded| - 1], path); }
  }

  ghost predicate Positive(folded: seq<Folded>) {
    forall i :: 0 <= i < |folded| ==> folded[i].count > 0
  }

  lemma {:induction false} InclusivePositive(folded: seq<Folded>, path: Path)
    requires Positive(folded)
    ensures Inclusive(folded, path) > 0 <==> Visited(folded, path)
  {
    if folded != [] { InclusivePositive(folded[..|folded| - 1], path); }
  }

  // ---------- folding preserves inclusive counts ----------

  lemma {:induction false} InclusiveWithSelf(acc: seq<Folded>, here: Path, count: nat, childSum: nat, path: Path)
    ensures Inclusive(WithSelf(acc, here, count, childSum), path)
         == Inclusive(acc, path) + if count > childSum && path <= here then count - childSum else 0
  {
    if count > childSum { assert WithSelf(acc, here, count, childSum)[..|acc|] == acc; }
  }

  lemma {:induction false} SelfTimesPositive(lines: seq<Line>, acc: seq<Folded>, f: Forest, prefix: Path)
    requires Positive(acc)
    ensures Positive(SelfTimes(lines, acc, f, prefix))
    decreases f
  {
    if f.Node? && f.line < |lines| {
      var here, sum := prefix + [lines[f.line].sym], RootSum(lines, f.kids);
      SelfTimesPositive(lines, acc, f.kids, here);
      var inner := SelfTimes(lines, acc, f.kids, here);
      SelfTimesPositive(lines, WithSelf(inner, here, lines[f.line].count, sum), f.rest, prefix);
    }
  }

  /** A path no longer than the prefix is passed by all of a forest's stacks or by none. */
  lemma {:induction false} InclusiveShort(lines: seq<Line>, acc: seq<Folded>, f: Forest, prefix: Path, path: Path)
    requires |path| <= |prefix|
    ensures var after := SelfTimes(lines, acc, f, prefix);
            && Total(acc) <= Total(after)
            && Inclusive(after, path) == Inclusive(acc, path) + if path <= prefix then Total(after) - Total(acc) else 0
    decreases f
  {
    if f.Node? && f.line < |lines| {
      var here, sum, count := prefix + [lines[f.line].sym], RootSum(lines, f.kids), lines[f.line].count;
      var inner := SelfTimes(lines, acc, f.kids, here);
      InclusiveShort(lines, acc, f.kids, here, path);
      TotalWithSelf(inner, here, count, sum);
      InclusiveWithSelf(inner, here, count, sum, path);
      InclusiveShort(lines, WithSelf(inner, here, count, sum), f.rest, prefix, path);
      assert path <= here <==> path <= prefix;
    }
  }

  lemma {:induction false} InputSplit(lines: seq<Line>, path: Path, i: nat, j: nat, k: nat)
    requires i <= j <= k <= |lines|
    ensures InputAt(lines, path, i, k) == InputAt(lines, path, i, j) + InputAt(lines, path, j, k)
    decreases j - i
  {
    if i < j { InputSplit(lines, path, i + 1, j, k); }
  }

  /** The lines of a forest lie deeper than the line it hangs from. */
  lemma {:induction false} InputDeeper(lines: seq<Line>, f: Forest, i: nat, p: int, path: Path)
    requires InOrder(lines, f, i) && Hangs(lines, f, p) && -1 <= p < |lines| && |path| <= |PathOf(lines, p)|
    ensures End(f, i) <= |lines| && InputAt(lines, path, i, End(f, i)) == 0
    decreases f
  {
    EndInRange(lines, f, i);
    if f.Node? {
      EndInRange(lines, f.kids, i + 1);
      InputDeeper(lines, f.kids, i + 1, i, path);
      InputDeeper(lines, f.rest, End(f.kids, i + 1), p, path);
      InputSplit(lines, path, i + 1, End(f.kids, i + 1), End(f, i));
    }
  }

  ghost predicate Situated(lines: seq<Line>, f: Forest, i: nat, p: int, prefix: Path) {
    InOrder(lines, f, i) && Hangs(lines, f, p) && -1 <= p < |lines| && prefix == PathOf(lines, p)
  }

  /** The stacks after the first tree of a forest. */
  ghost function AfterTree(lines: seq<Line>, acc: seq<Folded>, f: Forest, prefix: Path): seq<Folded>
    requires f.Node? && f.line < |lines|
  {
    var here := prefix + [lines[f.line].sym];
    WithSelf(SelfTimes(lines, acc, f.kids, here), here, lines[f.line].count, RootSum(lines, f.kids))
  }

  ghost predicate TreeWeighted(lines: seq<Line>, f: Forest)
    requires f.Node? && f.line < |lines|
  {
    RootSum(lines, f.kids) <= lines[f.line].count && WellWeighted(lines, f.kids)
  }

  /** One tree adds at least its input counts at every path, and exactly them when balanced. */
  lemma {:induction false} InclusiveTree(lines: seq<Line>, acc: seq<Folded>, f: Forest, prefix: Path, i: nat, p: int, path: Path)
    requires f.Node? && Situated(lines, f, i, p, prefix) && |path| > |prefix|
    ensures End(f.kids, i + 1) <= |lines|
    ensures var gain := Inclusive(AfterTree(lines, acc, f, prefix), path) - Inclusive(acc, path);
            var input := InputAt(lines, path, i, End(f.kids, i + 1));
            && gain >= input
            && (TreeWeighted(lines, f) ==> gain == input)
            && (path == PathOf(lines, i) && !TreeWeighted(lines, f) ==> gain > input)
    decreases f, 0
  {
    EndInRange(lines, f.kids, i + 1);
    var here, sum, count := prefix + [lines[i].sym], RootSum(lines, f.kids), lines[i].count;
    var inner := SelfTimes(lines, acc, f.kids, here);
    assert here == PathOf(lines, i);
    InclusiveWithSelf(inner, here, count, sum, path);
    if |path| > |here| {
      InclusiveForest(lines, acc, f.kids, here, i + 1, i, path);
    } else {
      InclusiveShort(lines, acc, f.kids, here, path);
      InputDeeper(lines, f.kids, i + 1, i, path);
      EmittedTotal(lines, acc, f.kids, here, i + 1);
      assert path <= here <==> path == here;
    }
  }

  lemma {:induction false} InclusiveForest(lines: seq<Line>, acc: seq<Folded>, f: Forest, prefix: Path, i: nat, p: int, path: Path)
    requires Situated(lines, f, i, p, prefix) && |path| > |prefix|
    ensures End(f, i) <= |lines|
    ensures var gain := Inclusive(SelfTimes(lines, acc, f, prefix), path) - Inclusive(acc, path);
            var input := InputAt(lines, path, i, End(f, i));
            gain >= input && (WellWeighted(lines, f) ==> gain == input)
    decreases f, 1
  {
    EndInRange(lines, f, i);
    if f.Node? {
      InclusiveTree(lines, acc, f, prefix, i, p, path);
      InclusiveForest(lines, AfterTree(lines, acc, f, prefix), f.rest, prefix, End(f.kids, i + 1), p, path);
      InputSplit(lines, path, i, End(f.kids, i + 1), End(f, i));
    }
  }

  /** An unbalanced forest inflates the count at some path. */
  lemma {:induction false} Inflated(lines: seq<Line>, acc: seq<Folded>, f: Forest, prefix: Path, i: nat, p: int)
    returns (path: Path)
    requires Situated(lines, f, i, p, prefix) && !WellWeighted(lines, f)
    ensures |path| > |prefix| && End(f, i) <= |lines|
    ensures Inclusive(SelfTimes(lines, acc, f, prefix), path) > Inclusive(acc, path) + InputAt(lines, path, i, End(f, i))
    decreases f
  {
    EndInRange(lines, f, i);
    var after, mid := AfterTree(lines, acc, f, prefix), End(f.kids, i + 1);
    if TreeWeighted(lines, f) {
      path := Inflated(lines, after, f.rest, prefix, mid, p);
    } else {
      path := PathOf(lines, i);
      InclusiveForest(lines, after, f.rest, prefix, mid, p, path);
    }
    InclusiveTree(lines, acc, f, prefix, i, p, path);
    InputSplit(lines, path, i, mid, End(f, i));
  }

  /** The rebuilt count at a path is the input count there, except where a line is outweighed. */
  lemma {:induction false} FoldKeepsCounts(lines: seq<Line>)
    ensures forall path: Path :: path != [] ==> Inclusive(FoldOf(lines), path) >= InputAt(lines, path, 0, |lines|)
    ensures (forall path: Path :: path != [] ==> Inclusive(FoldOf(lines), path) == InputAt(lines, path, 0, |lines|))
            <==> Balanced(lines)
  {
    var f := CallForest(lines);
    ForestIsParentRelation(lines);
    BalancedIsWellWeighted(lines);
    forall path: Path | path != []
      ensures Inclusive(FoldOf(lines), path) >= InputAt(lines, path, 0, |lines|)
      ensures Balanced(lines) ==> Inclusive(FoldOf(lines), path) == InputAt(lines, path, 0, |lines|)
    {
      InclusiveForest(lines, [], f, [], 0, -1, path);
    }
    if !Balanced(lines) {
      var path := Inflated(lines, [], f, [], 0, -1);
      assert Inclusive(FoldOf(lines), path) != InputAt(lines, path, 0, |lines|);
    }
  }

  /** A line outweighed by its child: the rebuilt count of the parent is the child's, not its own. */
  lemma {:induction false} OutweighedIsInflated()
    ensures var lines := [Line(0, 1, "a"), Line(1, 2, "b")];
            !Balanced(lines) && Inclusive(FoldOf(lines), ["a"]) == 2 && InputAt(lines, ["a"], 0, 2) == 1
  {
    var lines := [Line(0, 1, "a"), Line(1, 2, "b")];
    assert Parent(lines, 0) == -1 && Parent(lines, 1) == 0;
    assert ChildSum(lines, 0, 2, 2) == 0 && ChildSum(lines, 0, 1, 2) == 2;
    assert !Carries(lines, 0, 0, 2);
    assert PathOf(lines, 0) == ["a"] && PathOf(lines, 1) == ["a", "b"];
    assert InputAt(lines, ["a"], 1, 2) == 0;
    var leaf := Node(1, Empty, Empty);
    assert Grow(lines, 2, 1) == (Empty, 2) && Grow(lines, 2, 0) == (Empty, 2) && Grow(lines, 2, -1) == (Empty, 2);
    assert Grow(lines, 1, 0) == (leaf, 2);
    assert SelfTimes(lines, [], leaf, ["a"]) == [Folded(["a", "b"], 2)];
    assert CallForest(lines) == Node(0, leaf, Empty);
    assert [Folded(["a", "b"], 2)][..0] == [];
  }

  /** Folding then building: each trie node carries the input total of the lines with its path. */
  lemma {:induction false} FoldThenBuild(lines: seq<Line>, path: Path)
    requires Balanced(lines) && path != []
    ensures var input := InputAt(lines, path, 0, |lines|);
            Get(Build(FoldOf(lines)), path) == if input == 0 then None else Some(input)
  {
    FoldKeepsCounts(lines);
    SelfTimesPositive(lines, [], CallForest(lines), []);
    InclusivePositive(FoldOf(lines), path);
    BuildHolds(FoldOf(lines), path);
  }

  lemma {:induction false} InclusiveOfRoot(folded: seq<Folded>)
    ensures Inclusive(folded, []) == Total(folded)
  {
    if folded != [] { InclusiveOfRoot(folded[..|folded| - 1]); }
  }

  /** The root carries the total of the top-level lines. */
  lemma {:induction false} RootCount(lines: seq<Line>)
    requires Balanced(lines)
    ensures Build(FoldOf(lines)).count == ChildSum(lines, -1, 0, |lines|)
  {
    BuildHolds(FoldOf(lines), []);
    InclusiveOfRoot(FoldOf(lines));
    FoldedTotal(lines);
  }
}
