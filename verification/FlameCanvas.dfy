/**
 `RenderSVG` of internal/flamegraph/render.go as a whole: frame widths against the sample totals,
 the canvas height chosen by `treeDepth`, and independence from the order of the folded stacks.
 */
module FlameCanvas {
  import opened Basics
  import opened CallGraph
  import opened FlameTrie
  import opened FlameLayout
  import opened Ordering

  // ---------- depth ----------

  /** What a frame adds to `treeDepth`, which skips the name "root", or to the true depth. */
  function Weight(sym: string, skipRoot: bool): nat {
    if skipRoot && sym == "root" then 0 else 1
  }

  function Max(a: nat, b: nat): nat {
    if a < b then b else a
  }

  /** `treeDepth` when `skipRoot`, the number of levels otherwise. */
  function Depth(n: Trie, skipRoot: bool): nat
    decreases n, |n.order| + 1
  {
    Weight(n.sym, skipRoot) + Deepest(n, n.order, skipRoot)
  }

  function Deepest(n: Trie, keys: seq<string>, skipRoot: bool): nat
    decreases n, |keys|
  {
    if keys == [] || keys[0] !in n.children then 0
    else Max(Depth(n.children[keys[0]], skipRoot), Deepest(n, keys[1..], skipRoot))
  }

  function PathWeight(frames: Path, skipRoot: bool): nat {
    if frames == [] then 0 else Weight(frames[0], skipRoot) + PathWeight(frames[1..], skipRoot)
  }

  /** The heaviest folded stack. */
  function MaxWeight(folded: seq<Folded>, skipRoot: bool): nat {
    if folded == [] then 0
    else Max(MaxWeight(folded[..|folded| - 1], skipRoot), PathWeight(folded[|folded| - 1].frames, skipRoot))
  }

  lemma {:induction false} DeepestFrame(n: Trie, m: Trie, keys: seq<string>, skipRoot: bool)
    requires forall s :: s in keys ==> s in n.children && s in m.children && n.children[s] == m.children[s]
    ensures Deepest(n, keys, skipRoot) == Deepest(m, keys, skipRoot)
  {
    if keys != [] { DeepestFrame(n, m, keys[1..], skipRoot); }
  }

  lemma {:induction false} DeepestBump(n: Trie, m: Trie, keys: seq<string>, s: string, v: nat, skipRoot: bool)
    requires Distinct(keys) && s in keys && forall t :: t in keys ==> t in n.children && t in m.children
    requires forall t :: t in keys && t != s ==> n.children[t] == m.children[t]
    requires Depth(m.children[s], skipRoot) == Max(Depth(n.children[s], skipRoot), v)
    ensures Deepest(m, keys, skipRoot) == Max(Deepest(n, keys, skipRoot), v)
  {
    if keys[0] == s {
      assert forall t :: t in keys[1..] ==> t != s;
      DeepestFrame(n, m, keys[1..], skipRoot);
    } else {
      DeepestBump(n, m, keys[1..], s, v, skipRoot);
    }
  }

  lemma {:induction false} DeepestAppend(n: Trie, keys: seq<string>, s: string, skipRoot: bool)
    requires s in n.children && forall t :: t in keys ==> t in n.children
    ensures Deepest(n, keys + [s], skipRoot) == Max(Deepest(n, keys, skipRoot), Depth(n.children[s], skipRoot))
  {
    if keys != [] {
      assert (keys + [s])[1..] == keys[1..] + [s];
      DeepestAppend(n, keys[1..], s, skipRoot);
    }
  }

  lemma {:induction false} AddDeepens(n: Trie, frames: Path, c: nat, skipRoot: bool)
    requires WellFormed(n)
    ensures var m := Add(n, frames, c);
            Deepest(m, m.order, skipRoot) == Max(Deepest(n, n.order, skipRoot), PathWeight(frames, skipRoot))
    decreases |frames|
  {
    var m := Add(n, frames, c);
    if frames == [] {
      DeepestFrame(n, m, n.order, skipRoot);
    } else {
      var s := frames[0];
      AddDeepens(ChildOf(n, s), frames[1..], c, skipRoot);
      if s in n.children {
        DeepestBump(n, m, n.order, s, PathWeight(frames, skipRoot), skipRoot);
      } else {
        DeepestAppend(m, n.order, s, skipRoot);
        DeepestFrame(n, m, n.order, skipRoot);
      }
    }
  }

  /** The depth of the merged tree is the weight of the heaviest stack, for either measure. */
  lemma {:induction false} BuildDepth(folded: seq<Folded>, skipRoot: bool)
    ensures Deepest(Build(folded), Build(folded).order, skipRoot) == MaxWeight(folded, skipRoot)
  {
    if folded != [] {
      var init, last := folded[..|folded| - 1], folded[|folded| - 1];
      BuildDepth(init, skipRoot);
      BuildWellFormed(init);
      AddDeepens(Build(init), last.frames, last.count, skipRoot);
    }
  }

  // ---------- the levels of the placed frames ----------

  ghost function Levels(shape: Shape): nat {
    if shape.Nothing? then 0 else Max(1 + Levels(shape.kids), Levels(shape.rest))
  }

  lemma {:induction false} DeepestInsert(n: Trie, less: (string, string) -> bool, s: string, keys: seq<string>)
    requires s in n.children && forall t :: t in keys ==> t in n.children
    ensures Deepest(n, Insert(less, s, keys), false) == Max(Depth(n.children[s], false), Deepest(n, keys, false))
  {
    if keys != [] && less(keys[0], s) { DeepestInsert(n, less, s, keys[1..]); }
  }

  lemma {:induction false} DeepestSort(n: Trie, less: (string, string) -> bool, keys: seq<string>)
    requires forall t :: t in keys ==> t in n.children
    ensures Deepest(n, Sort(less, keys), false) == Deepest(n, keys, false)
  {
    if keys != [] {
      DeepestSort(n, less, keys[1..]);
      SortPermutes(less, keys[1..]);
      SameMembers(Sort(less, keys[1..]), keys[1..]);
      DeepestInsert(n, less, keys[0], Sort(less, keys[1..]));
    }
  }

  lemma {:induction false} ArrangeKeysLevels(n: Trie, keys: seq<string>)
    requires WellFormed(n) && forall s :: s in keys ==> s in n.children
    ensures Levels(ArrangeKeys(n, keys)) == Deepest(n, keys, false)
    decreases n, |keys|
  {
    if keys != [] {
      ArrangeLevels(n.children[keys[0]]);
      ArrangeKeysLevels(n, keys[1..]);
    }
  }

  lemma {:induction false} ArrangeLevels(n: Trie)
    requires WellFormed(n)
    ensures Levels(Arrange(n)) == Deepest(n, n.order, false)
    decreases n, |n.order| + 1
  {
    SortedChildrenKeep(n);
    ArrangeKeysLevels(n, SortedChildren(n));
    DeepestSort(n, Comparison(n), n.order);
  }

  lemma {:induction false} PlacedLevel(shape: Shape, path: Path, x: real, width: real, whole: nat, height: int, r: Rect)
    requires Placed(shape, path, x, width, whole, height, r)
    ensures |path| < |r.path| <= |path| + Levels(shape) && r.y == height - PADDING - |r.path| * ROW_HEIGHT
    decreases shape
  {
    var here, w := path + [shape.sym], Share(width, shape.count, whole);
    if Placed(shape.kids, here, x, w, shape.count, height, r) {
      PlacedLevel(shape.kids, here, x, w, shape.count, height, r);
    } else if Placed(shape.rest, path, x + w, width, whole, height, r) {
      PlacedLevel(shape.rest, path, x + w, width, whole, height, r);
    }
  }

  lemma {:induction false} TopFrame(shape: Shape, path: Path, x: real, width: real, whole: nat, height: int) returns (r: Rect)
    requires shape.Child?
    ensures Placed(shape, path, x, width, whole, height, r) && |r.path| == |path| + Levels(shape)
    decreases shape
  {
    var here, w := path + [shape.sym], Share(width, shape.count, whole);
    if 1 + Levels(shape.kids) < Levels(shape.rest) {
      r := TopFrame(shape.rest, path, x + w, width, whole, height);
    } else if shape.kids.Child? {
      r := TopFrame(shape.kids, here, x, w, shape.count, height);
    } else {
      r := FrameRect(shape.count, here, x, w, height);
    }
  }

  // ---------- the picture ----------

  datatype Picture = Picture(height: int, rects: seq<Rect>)

  /** The root with the count that avoids dividing by zero on an empty graph. */
  function Root(folded: seq<Folded>): Trie {
    var root := Build(folded);
    if root.count == 0 then root.(count := 1) else root
  }

  const USABLE_WIDTH: real := (SVG_WIDTH - 2 * PADDING) as real

  function CanvasHeight(root: Trie): int {
    Depth(root, true) * ROW_HEIGHT + 2 * PADDING + ROW_HEIGHT
  }

  function Draw(folded: seq<Folded>): Picture {
    var root := Root(folded);
    var height := CanvasHeight(root);
    Picture(height, Place([], Arrange(root), [], PADDING as real, USABLE_WIDTH, root.count, height))
  }

  lemma {:induction false} RootShape(folded: seq<Folded>)
    ensures WellFormed(Root(folded)) && Root(folded).count > 0 && Root(folded).sym == "root"
    ensures Deepest(Root(folded), Root(folded).order, true) == MaxWeight(folded, true)
    ensures Deepest(Root(folded), Root(folded).order, false) == MaxWeight(folded, false)
  {
    var built, root := Build(folded), Root(folded);
    BuildWellFormed(folded);
    BuildDepth(folded, true);
    BuildDepth(folded, false);
    SumFrame(built, root, built.order);
    DeepestFrame(built, root, built.order, true);
    DeepestFrame(built, root, built.order, false);
    BuildNamed(folded);
  }

  lemma {:induction false} BuildNamed(folded: seq<Folded>)
    ensures Build(folded).sym == "root"
  {
    if folded != [] { BuildNamed(folded[..|folded| - 1]); }
  }

  method RenderSVG(folded: seq<Folded>) returns (picture: Picture)
    ensures picture == Draw(folded)
  {
    var root := BuildTrie(folded);
    if root.count == 0 {
      root := root.(count := 1);
    }
    RootShape(folded);
    var height := CanvasHeight(root);
    var rects := RenderRow([], root, [], PADDING as real, USABLE_WIDTH, height);
    picture := Picture(height, rects);
  }

  lemma {:induction false} Drawn(folded: seq<Folded>, r: Rect)
    ensures var root := Root(folded);
            r in Draw(folded).rects <==>
              Placed(Arrange(root), [], PADDING as real, USABLE_WIDTH, root.count, CanvasHeight(root), r)
  {
    var root := Root(folded);
    PlaceHolds([], Arrange(root), [], PADDING as real, USABLE_WIDTH, root.count, CanvasHeight(root), r);
  }

  /** Frames lie within their ancestors, and unrelated frames never overlap. */
  lemma {:induction false} FramesNest(folded: seq<Folded>, a: Rect, b: Rect)
    requires a in Draw(folded).rects && b in Draw(folded).rects
    ensures PairOk(a, b)
    ensures Inside(a, PADDING as real, USABLE_WIDTH)
  {
    var root := Root(folded);
    RootShape(folded);
    ArrangeFits(root);
    Drawn(folded, a);
    Drawn(folded, b);
    PlacedPair(Arrange(root), [], PADDING as real, USABLE_WIDTH, root.count, CanvasHeight(root), a, b);
    PlacedInside(Arrange(root), [], PADDING as real, USABLE_WIDTH, root.count, CanvasHeight(root), a);
    ShareBounds(USABLE_WIDTH, ShapeSum(Arrange(root)), root.count);
  }

  // ---------- where a frame stands in its row ----------

  /** Two frames of the same parent. */
  predicate Siblings(a: Rect, b: Rect) {
    && |a.path| == |b.path| > 0 && a.path != b.path
    && a.path[..|a.path| - 1] == b.path[..|b.path| - 1]
  }

  predicate ParentOf(a: Rect, b: Rect) {
    b.path != [] && a.path == b.path[..|b.path| - 1]
  }

  function NameOf(r: Rect): string
    requires r.path != []
  {
    r.path[|r.path| - 1]
  }

  /** Of two frames of one parent the one with more samples, or with equal samples the smaller name, comes first. */
  ghost predicate Leads(a: Rect, b: Rect) {
    Siblings(a, b) && (a.count > b.count || (a.count == b.count && Less(NameOf(a), NameOf(b))))
  }

  /** A frame at the bottom of a row has the name and the count of one of the row's children. */
  lemma {:induction false} RowFrame(n: Trie, keys: seq<string>, path: Path, x: real, width: real, whole: nat, height: int, r: Rect)
    requires Placed(ArrangeKeys(n, keys), path, x, width, whole, height, r) && |r.path| == |path| + 1
    ensures exists i :: 0 <= i < |keys| && keys[i] in n.children && r.path == path + [keys[i]] && r.count == n.children[keys[i]].count
    decreases n, |keys|
  {
    var c := n.children[keys[0]];
    var here, w := path + [keys[0]], Share(width, c.count, whole);
    if Placed(Arrange(c), here, x, w, c.count, height, r) {
      PlacedLevel(Arrange(c), here, x, w, c.count, height, r);
    } else if Placed(ArrangeKeys(n, keys[1..]), path, x + w, width, whole, height, r) {
      RowFrame(n, keys[1..], path, x + w, width, whole, height, r);
      var i :| 0 <= i < |keys| - 1 && keys[1..][i] in n.children && r.path == path + [keys[1..][i]]
               && r.count == n.children[keys[1..][i]].count;
      assert keys[i + 1] == keys[1..][i];
    }
  }

  /** The first frame of a row leads its siblings. */
  lemma {:induction false} FirstLeads(n: Trie, keys: seq<string>, path: Path, x: real, width: real, whole: nat, height: int, r: Rect, a: Rect)
    requires keys != [] && keys[0] in n.children && InDrawingOrder(n, keys)
    requires Placed(ArrangeKeys(n, keys[1..]), path, x, width, whole, height, r)
    requires a.path == path + [keys[0]] && a.count == n.children[keys[0]].count
    ensures Siblings(r, a) ==> Leads(a, r)
  {
    if Siblings(r, a) {
      RowFrame(n, keys[1..], path, x, width, whole, height, r);
      var i :| 0 <= i < |keys| - 1 && keys[1..][i] in n.children && r.path == path + [keys[1..][i]]
               && r.count == n.children[keys[1..][i]].count;
      assert keys[i + 1] == keys[1..][i];
    }
  }

  /** Siblings above the first child of a row are not that child's own frame. */
  lemma {:induction false} BothAbove(shape: Shape, path: Path, x: real, width: real, whole: nat, height: int, a: Rect, b: Rect)
    requires shape.Child? && Siblings(a, b)
    requires InFirst(shape, path, x, width, whole, height, a) && InFirst(shape, path, x, width, whole, height, b)
    ensures var here, w := path + [shape.sym], Share(width, shape.count, whole);
            Placed(shape.kids, here, x, w, shape.count, height, a) && Placed(shape.kids, here, x, w, shape.count, height, b)
  {
    var here, w := path + [shape.sym], Share(width, shape.count, whole);
    if Placed(shape.kids, here, x, w, shape.count, height, a) { PlacedLevel(shape.kids, here, x, w, shape.count, height, a); }
    if Placed(shape.kids, here, x, w, shape.count, height, b) { PlacedLevel(shape.kids, here, x, w, shape.count, height, b); }
  }

  lemma {:induction false} SameUntilLast(a: Rect, b: Rect, k: nat)
    requires Siblings(a, b) && k < |a.path| - 1
    ensures a.path[k] == b.path[k]
  {
    assert a.path[..|a.path| - 1][k] == b.path[..|b.path| - 1][k];
  }

  /** A frame above the first child that has a sibling above a later one is that child's own frame. */
  lemma {:induction false} FrameOfFirst(shape: Shape, path: Path, x: real, width: real, whole: nat, height: int, a: Rect, b: Rect)
    requires Fits(shape) && width >= 0.0 && ShapeSum(shape) <= whole && shape.Child? && Siblings(a, b)
    requires InFirst(shape, path, x, width, whole, height, b)
    requires Placed(shape.rest, path, x + Share(width, shape.count, whole), width, whole, height, a)
    ensures b.path == path + [shape.sym] && b.count == shape.count
  {
    var here, w := path + [shape.sym], Share(width, shape.count, whole);
    FirstInside(shape, path, x, width, whole, height, b);
    ShareBounds(width, shape.count, whole);
    PlacedInside(shape.rest, path, x + w, width, whole, height, a);
    if Placed(shape.kids, here, x, w, shape.count, height, b) {
      PlacedLevel(shape.kids, here, x, w, shape.count, height, b);
      SameUntilLast(a, b, |path|);
      assert false;
    }
  }

  lemma {:induction false} ChildWellFormed(n: Trie, s: string)
    requires WellFormed(n) && s in n.children
    ensures WellFormed(n.children[s])
  {
  }

  lemma {:induction false} LeadsSiblings(a: Rect, b: Rect)
    requires Leads(a, b)
    ensures Siblings(a, b) && Siblings(b, a)
  {
  }

  lemma {:induction false} LeadsAsymmetric(a: Rect, b: Rect)
    requires Leads(a, b)
    ensures !Leads(b, a)
  {
    LessAsymmetric(NameOf(a), NameOf(b));
  }

  lemma {:induction false} OrderOfRest(n: Trie, keys: seq<string>)
    requires InDrawingOrder(n, keys) && keys != []
    ensures InDrawingOrder(n, keys[1..])
  {
  }

  /** A row of the tree: its first child, what is above it, and the rest. */
  lemma {:induction false} RowParts(n: Trie, keys: seq<string>, path: Path, x: real, width: real, whole: nat, height: int, r: Rect)
    requires Placed(ArrangeKeys(n, keys), path, x, width, whole, height, r)
    ensures keys != [] && keys[0] in n.children
    ensures var shape, c := ArrangeKeys(n, keys), n.children[keys[0]];
            && shape.Child? && shape.sym == keys[0] && shape.count == c.count
            && shape.kids == ArrangeKeys(c, SortedChildren(c)) && shape.rest == ArrangeKeys(n, keys[1..])
            && (!InFirst(shape, path, x, width, whole, height, r) ==>
                  Placed(shape.rest, path, x + Share(width, c.count, whole), width, whole, height, r))
  {
  }

  lemma {:induction false} LeadsIsLeft(n: Trie, keys: seq<string>, path: Path, x: real, width: real, whole: nat, height: int, a: Rect, b: Rect)
    requires WellFormed(n) && Distinct(keys) && (forall s :: s in keys ==> s in n.children) && InDrawingOrder(n, keys)
    requires width >= 0.0 && SumOf(n, keys) <= whole && Leads(a, b)
    requires Placed(ArrangeKeys(n, keys), path, x, width, whole, height, a)
    requires Placed(ArrangeKeys(n, keys), path, x, width, whole, height, b)
    ensures a.x + a.w <= b.x
    decreases n, |keys|
  {
    hide InDrawingOrder, WellFormed, Leads, Placed, InFirst, ArrangeKeys, Arrange, Fits, Share, Siblings, SortedChildren, FrameRect;
    LeadsSiblings(a, b);
    RowParts(n, keys, path, x, width, whole, height, a);
    RowParts(n, keys, path, x, width, whole, height, b);
    ArrangeKeysFits(n, keys);
    var c, shape := n.children[keys[0]], ArrangeKeys(n, keys);
    var here, w := path + [keys[0]], Share(width, c.count, whole);
    var aFirst, bFirst := InFirst(shape, path, x, width, whole, height, a), InFirst(shape, path, x, width, whole, height, b);
    if aFirst && bFirst {
      BothAbove(shape, path, x, width, whole, height, a, b);
      ChildWellFormed(n, keys[0]);
      SortedChildrenKeep(c);
      SortedChildrenOrdered(c);
      ShareBounds(width, c.count, whole);
      LeadsIsLeft(c, SortedChildren(c), here, x, w, c.count, height, a, b);
    } else if aFirst {
      FirstEndsBeforeRest(shape, path, x, width, whole, height, a, b);
    } else if bFirst {
      FrameOfFirst(shape, path, x, width, whole, height, a, b);
      FirstLeads(n, keys, path, x + w, width, whole, height, a, b);
      LeadsAsymmetric(a, b);
      assert false;
    } else {
      OrderOfRest(n, keys);
      LeadsIsLeft(n, keys[1..], path, x + w, width, whole, height, a, b);
    }
  }

  lemma {:induction false} FirstEndsBeforeRest(shape: Shape, path: Path, x: real, width: real, whole: nat, height: int, a: Rect, b: Rect)
    requires Fits(shape) && width >= 0.0 && ShapeSum(shape) <= whole && shape.Child?
    requires InFirst(shape, path, x, width, whole, height, a)
    requires Placed(shape.rest, path, x + Share(width, shape.count, whole), width, whole, height, b)
    ensures a.x + a.w <= b.x
  {
    FirstInside(shape, path, x, width, whole, height, a);
    PlacedInside(shape.rest, path, x + Share(width, shape.count, whole), width, whole, height, b);
  }

  /** What a frame's left edge adjoins: the left edge of the row, of its parent, or the end of a sibling. */
  ghost predicate Adjoins(shape: Shape, path: Path, x: real, width: real, whole: nat, height: int, r: Rect) {
    || (|r.path| == |path| + 1 && r.x == x)
    || exists s :: Placed(shape, path, x, width, whole, height, s) && Borders(s, r)
  }

  ghost predicate Borders(s: Rect, r: Rect) {
    (ParentOf(s, r) && s.x == r.x) || (Siblings(s, r) && s.x + s.w == r.x)
  }

  lemma {:induction false} LeavesNoGap(shape: Shape, path: Path, x: real, width: real, whole: nat, height: int, r: Rect)
    requires Fits(shape) && width >= 0.0 && ShapeSum(shape) <= whole && Placed(shape, path, x, width, whole, height, r)
    ensures Adjoins(shape, path, x, width, whole, height, r)
    decreases shape
  {
    var here, w := path + [shape.sym], Share(width, shape.count, whole);
    var first := FrameRect(shape.count, here, x, w, height);
    ShareBounds(width, shape.count, whole);
    if Placed(shape.kids, here, x, w, shape.count, height, r) {
      LeavesNoGap(shape.kids, here, x, w, shape.count, height, r);
      PlacedInside(shape.kids, here, x, w, shape.count, height, r);
      if |r.path| == |here| + 1 && r.x == x {
        assert r.path[..|here|] == here;
        assert Borders(first, r);
      } else {
        var s :| Placed(shape.kids, here, x, w, shape.count, height, s) && Borders(s, r);
        assert Placed(shape, path, x, width, whole, height, s);
      }
    } else if Placed(shape.rest, path, x + w, width, whole, height, r) {
      LeavesNoGap(shape.rest, path, x + w, width, whole, height, r);
      PlacedInside(shape.rest, path, x + w, width, whole, height, r);
      if |r.path| == |path| + 1 && r.x == x + w {
        assert r.path[|path|] != shape.sym && r.path[..|path|] == path && here[..|path|] == path;
        assert Borders(first, r);
      } else {
        var s :| Placed(shape.rest, path, x + w, width, whole, height, s) && Borders(s, r);
        assert Placed(shape, path, x, width, whole, height, s);
      }
    }
  }

  /**
   In every picture: of two frames of one parent the one with more samples, or with equal samples the
   smaller name, ends at or before the other begins.
   */
  lemma {:induction false} SiblingsInOrder(folded: seq<Folded>, a: Rect, b: Rect)
    requires a in Draw(folded).rects && b in Draw(folded).rects && Siblings(a, b)
    ensures a.count == Inclusive(folded, a.path) && b.count == Inclusive(folded, b.path)
    ensures a.count > b.count || (a.count == b.count && Less(NameOf(a), NameOf(b))) ==> a.x + a.w <= b.x
  {
    var root := Root(folded);
    RootShape(folded);
    Drawn(folded, a);
    Drawn(folded, b);
    RectCount(folded, a);
    RectCount(folded, b);
    SortedChildrenKeep(root);
    SortedChildrenOrdered(root);
    if Leads(a, b) {
      LeadsIsLeft(root, SortedChildren(root), [], PADDING as real, USABLE_WIDTH, root.count, CanvasHeight(root), a, b);
    }
  }

  /** The frames of a row leave no gap: each begins at 12, at its parent's left edge, or where a sibling ends. */
  lemma {:induction false} RowsLeaveNoGap(folded: seq<Folded>, r: Rect)
    requires r in Draw(folded).rects
    ensures || (|r.path| == 1 && r.x == 12.0)
            || (exists p :: p in Draw(folded).rects && ParentOf(p, r) && p.x == r.x)
            || (exists s :: s in Draw(folded).rects && Siblings(s, r) && s.x + s.w == r.x)
  {
    var root := Root(folded);
    RootShape(folded);
    ArrangeFits(root);
    Drawn(folded, r);
    LeavesNoGap(Arrange(root), [], PADDING as real, USABLE_WIDTH, root.count, CanvasHeight(root), r);
    if !(|r.path| == 1 && r.x == 12.0) {
      var s :| Placed(Arrange(root), [], PADDING as real, USABLE_WIDTH, root.count, CanvasHeight(root), s) && Borders(s, r);
      Drawn(folded, s);
    }
  }

  /** A frame's row is that of its depth, and it is drawn exactly when it is at least 0.4 wide. */
  lemma {:induction false} RowOfFrame(folded: seq<Folded>, r: Rect)
    requires r in Draw(folded).rects
    ensures Draw(folded).height == 16 * MaxWeight(folded, true) + 40
    ensures r.y == Draw(folded).height - 12 - 16 * |r.path| && (r.visible <==> r.w >= 0.4)
  {
    var root := Root(folded);
    RootShape(folded);
    Drawn(folded, r);
    PlacedLevel(Arrange(root), [], PADDING as real, USABLE_WIDTH, root.count, CanvasHeight(root), r);
    PlacedVisible(Arrange(root), [], PADDING as real, USABLE_WIDTH, root.count, CanvasHeight(root), r);
  }

  lemma {:induction false} PlacedVisible(shape: Shape, path: Path, x: real, width: real, whole: nat, height: int, r: Rect)
    requires Placed(shape, path, x, width, whole, height, r)
    ensures r.visible <==> r.w >= 0.4
    decreases shape
  {
    var here, w := path + [shape.sym], Share(width, shape.count, whole);
    if Placed(shape.kids, here, x, w, shape.count, height, r) {
      PlacedVisible(shape.kids, here, x, w, shape.count, height, r);
    } else if Placed(shape.rest, path, x + w, width, whole, height, r) {
      PlacedVisible(shape.rest, path, x + w, width, whole, height, r);
    }
  }

  ghost predicate OnCanvas(r: Rect, height: int) {
    0 <= r.y && r.y + ROW_HEIGHT - 1 <= height
  }

  /** A frame, drawn or too thin to draw, is on the canvas exactly when it is not too deep for the height. */
  lemma {:induction false} FrameOnCanvas(folded: seq<Folded>, r: Rect)
    requires r in Draw(folded).rects
    ensures OnCanvas(r, Draw(folded).height) <==> |r.path| <= MaxWeight(folded, true) + 1
  {
    var root := Root(folded);
    RootShape(folded);
    Drawn(folded, r);
    PlacedLevel(Arrange(root), [], PADDING as real, USABLE_WIDTH, root.count, CanvasHeight(root), r);
  }

  /**
   Every row falls on the canvas exactly when the longest stack has at most one frame more than
   the most frames not named "root" in a stack. Rows of frames too thin to draw are rows here.
   */
  lemma {:induction false} RowsOnCanvas(folded: seq<Folded>)
    ensures (forall r :: r in Draw(folded).rects ==> OnCanvas(r, Draw(folded).height))
            <==> MaxWeight(folded, false) <= MaxWeight(folded, true) + 1
  {
    var root := Root(folded);
    var shape, height := Arrange(root), CanvasHeight(root);
    RootShape(folded);
    ArrangeLevels(root);
    forall r | r in Draw(folded).rects
      ensures MaxWeight(folded, false) <= MaxWeight(folded, true) + 1 ==> OnCanvas(r, height)
    {
      Drawn(folded, r);
      PlacedLevel(shape, [], PADDING as real, USABLE_WIDTH, root.count, height, r);
    }
    if shape.Child? {
      var r := TopFrame(shape, [], PADDING as real, USABLE_WIDTH, root.count, height);
      Drawn(folded, r);
      PlacedLevel(shape, [], PADDING as real, USABLE_WIDTH, root.count, height, r);
      assert OnCanvas(r, height) <==> MaxWeight(folded, false) <= MaxWeight(folded, true) + 1;
    }
  }

  ghost predicate NoFrameNamedRoot(folded: seq<Folded>) {
    forall i, k :: 0 <= i < |folded| && 0 <= k < |folded[i].frames| ==> folded[i].frames[k] != "root"
  }

  lemma {:induction false} PlainPathWeight(frames: Path)
    requires forall k :: 0 <= k < |frames| ==> frames[k] != "root"
    ensures PathWeight(frames, true) == PathWeight(frames, false)
  {
    if frames != [] { PlainPathWeight(frames[1..]); }
  }

  lemma {:induction false} PlainNames(folded: seq<Folded>)
    requires NoFrameNamedRoot(folded)
    ensures MaxWeight(folded, true) == MaxWeight(folded, false)
  {
    if folded != [] {
      var n := |folded| - 1;
      assert forall i :: 0 <= i < n ==> folded[..n][i] == folded[i];
      PlainNames(folded[..n]);
      PlainPathWeight(folded[n].frames);
    }
  }

  /** Without frames named "root" every row is on the canvas. */
  lemma {:induction false} PlainRowsOnCanvas(folded: seq<Folded>, r: Rect)
    requires NoFrameNamedRoot(folded) && r in Draw(folded).rects
    ensures OnCanvas(r, Draw(folded).height)
  {
    PlainNames(folded);
    RowsOnCanvas(folded);
  }

  /** Two frames named "root" in one stack already fall off the canvas. */
  lemma {:induction false} NestedRootsOffCanvas()
    ensures var folded := [Folded(["root", "root"], 1)];
            exists r :: r in Draw(folded).rects && !OnCanvas(r, Draw(folded).height)
  {
    var folded := [Folded(["root", "root"], 1)];
    assert PathWeight(["root"], true) == 0 && PathWeight(["root"], false) == 1;
    assert ["root", "root"][1..] == ["root"];
    assert folded[..0] == [];
    RowsOnCanvas(folded);
  }

  // ---------- what a frame shows ----------

  /** A placed frame carries the count of the tree node at its path. */
  lemma {:induction false} PlacedCount(n: Trie, keys: seq<string>, path: Path, x: real, width: real, whole: nat, height: int, r: Rect)
    requires Placed(ArrangeKeys(n, keys), path, x, width, whole, height, r)
    ensures |r.path| > |path| && r.path[..|path|] == path && Get(n, r.path[|path|..]) == Some(r.count)
    decreases n, |keys|
  {
    var c := n.children[keys[0]];
    var here, w := path + [keys[0]], Share(width, c.count, whole);
    if Placed(Arrange(c), here, x, w, c.count, height, r) {
      PlacedCount(c, SortedChildren(c), here, x, w, c.count, height, r);
      var q := r.path[|path|..];
      assert q[1..] == r.path[|here|..];
      assert r.path[|path|] == r.path[..|here|][|path|] == keys[0];
      assert r.path[..|path|] == r.path[..|here|][..|path|] == path;
    } else if Placed(ArrangeKeys(n, keys[1..]), path, x + w, width, whole, height, r) {
      PlacedCount(n, keys[1..], path, x + w, width, whole, height, r);
    } else {
      assert r.path[|path|..] == [keys[0]] && [keys[0]][1..] == [];
    }
  }

  /** Every tree node other than the root is placed. */
  lemma {:induction false} NodePlaced(n: Trie, keys: seq<string>, path: Path, q: Path, x: real, width: real, whole: nat, height: int)
    returns (r: Rect)
    requires q != [] && q[0] in keys && Get(n, q).Some?
    requires forall s :: s in keys ==> s in n.children && WellFormed(n.children[s])
    ensures Placed(ArrangeKeys(n, keys), path, x, width, whole, height, r) && r.path == path + q
    decreases |q|, |keys|
  {
    var s := keys[0];
    var c := n.children[s];
    var w := Share(width, c.count, whole);
    PlacedStep(n, keys, path, x, width, whole, height);
    if q[0] != s {
      r := NodePlaced(n, keys[1..], path, q, x + w, width, whole, height);
    } else if |q| == 1 {
      assert q == [s];
      r := FrameRect(c.count, path + [s], x, w, height);
    } else {
      r := NodeAbove(c, path + [s], q[1..], x, w, height);
      assert path + q == path + [s] + q[1..];
    }
  }

  lemma {:induction false} PlacedStep(n: Trie, keys: seq<string>, path: Path, x: real, width: real, whole: nat, height: int)
    requires keys != [] && keys[0] in n.children
    ensures var c := n.children[keys[0]];
            var here, w := path + [keys[0]], Share(width, c.count, whole);
            && Placed(ArrangeKeys(n, keys), path, x, width, whole, height, FrameRect(c.count, here, x, w, height))
            && (forall r :: Placed(Arrange(c), here, x, w, c.count, height, r) ==> Placed(ArrangeKeys(n, keys), path, x, width, whole, height, r))
            && (forall r :: Placed(ArrangeKeys(n, keys[1..]), path, x + w, width, whole, height, r) ==> Placed(ArrangeKeys(n, keys), path, x, width, whole, height, r))
  {
  }

  lemma {:induction false} NodeAbove(n: Trie, path: Path, q: Path, x: real, width: real, height: int) returns (r: Rect)
    requires WellFormed(n) && q != [] && Get(n, q).Some?
    ensures Placed(Arrange(n), path, x, width, n.count, height, r) && r.path == path + q
    decreases |q|, |n.order| + 1
  {
    SortedChildrenKeep(n);
    r := NodePlaced(n, SortedChildren(n), path, q, x, width, n.count, height);
  }

  ghost predicate PositiveShape(shape: Shape) {
    shape.Nothing? || (shape.count > 0 && PositiveShape(shape.kids) && PositiveShape(shape.rest))
  }

  lemma {:induction false} ArrangeKeysPositive(n: Trie, keys: seq<string>)
    requires forall q: Path :: q != [] && Get(n, q).Some? ==> Get(n, q).value > 0
    ensures PositiveShape(ArrangeKeys(n, keys))
    decreases n, |keys|
  {
    if keys != [] && keys[0] in n.children {
      var c := n.children[keys[0]];
      GetStep(n, keys[0], []);
      assert Get(n, [keys[0]] + []) == Some(c.count);
      forall q: Path | q != [] && Get(c, q).Some? ensures Get(c, q).value > 0 {
        GetStep(n, keys[0], q);
      }
      ArrangeKeysPositive(c, SortedChildren(c));
      ArrangeKeysPositive(n, keys[1..]);
    }
  }

  lemma {:induction false} ShareOfShare(width: real, a: nat, b: nat, total: nat)
    requires b > 0 && total > 0
    ensures Share(Share(width, b, total), a, b) == Share(width, a, total)
  {
    var p, q, n := a as real, b as real, total as real;
    calc {
      (width * q / n) * p / q;
      (width * p * q / n) / q;
      width * p / n;
    }
  }

  lemma {:induction false} PlacedWidth(
      shape: Shape, path: Path, x: real, width: real, whole: nat, height: int, r: Rect, full: real, total: nat)
    requires PositiveShape(shape) && whole > 0 && total > 0 && width == Share(full, whole, total)
    requires Placed(shape, path, x, width, whole, height, r)
    ensures r.w == Share(full, r.count, total)
    decreases shape
  {
    var here, w := path + [shape.sym], Share(width, shape.count, whole);
    ShareOfShare(full, shape.count, whole, total);
    if Placed(shape.kids, here, x, w, shape.count, height, r) {
      PlacedWidth(shape.kids, here, x, w, shape.count, height, r, full, total);
    } else if Placed(shape.rest, path, x + w, width, whole, height, r) {
      PlacedWidth(shape.rest, path, x + w, width, whole, height, r, full, total);
    }
  }

  lemma {:induction false} RootHolds(folded: seq<Folded>, q: Path)
    requires q != []
    ensures Get(Root(folded), q) == if Visited(folded, q) then Some(Inclusive(folded, q)) else None
  {
    BuildHolds(folded, q);
  }

  lemma {:induction false} RootPositive(folded: seq<Folded>)
    requires Positive(folded)
    ensures PositiveShape(Arrange(Root(folded)))
  {
    var root := Root(folded);
    forall q: Path | q != [] && Get(root, q).Some? ensures Get(root, q).value > 0 {
      RootHolds(folded, q);
      InclusivePositive(folded, q);
    }
    ArrangeKeysPositive(root, SortedChildren(root));
  }

  lemma {:induction false} ShareAll(width: real, total: nat)
    requires total > 0
    ensures Share(width, total, total) == width
  {
    MulDiv(width, total as real);
  }

  lemma {:induction false} FrameWidth(folded: seq<Folded>, r: Rect)
    requires Positive(folded) && r in Draw(folded).rects
    ensures r.w == Share(USABLE_WIDTH, r.count, Root(folded).count)
  {
    var root := Root(folded);
    RootShape(folded);
    RootPositive(folded);
    Drawn(folded, r);
    ShareAll(USABLE_WIDTH, root.count);
    PlacedWidth(Arrange(root), [], PADDING as real, USABLE_WIDTH, root.count, CanvasHeight(root), r, USABLE_WIDTH, root.count);
  }

  lemma {:induction false} RectCount(folded: seq<Folded>, r: Rect)
    requires r in Draw(folded).rects
    ensures r.path != [] && r.count == Inclusive(folded, r.path) && Visited(folded, r.path)
  {
    var root := Root(folded);
    Drawn(folded, r);
    PlacedCount(root, SortedChildren(root), [], PADDING as real, USABLE_WIDTH, root.count, CanvasHeight(root), r);
    assert r.path[0..] == r.path;
    RootHolds(folded, r.path);
  }

  /** A frame shows the inclusive count at its path, at a width that is to 1176 as its count is to all samples. */
  lemma {:induction false} FrameShowsCount(folded: seq<Folded>, r: Rect)
    requires Positive(folded) && r in Draw(folded).rects
    ensures r.path != [] && r.count == Inclusive(folded, r.path) > 0
    ensures Inclusive(folded, []) > 0 && r.w == 1176.0 * r.count as real / Inclusive(folded, []) as real
  {
    RectCount(folded, r);
    InclusivePositive(folded, r.path);
    InclusiveWithinTotal(folded, r.path);
    BuildHolds(folded, []);
    FrameWidth(folded, r);
  }

  lemma {:induction false} VisitedPathDrawn(folded: seq<Folded>, q: Path) returns (r: Rect)
    requires q != [] && Visited(folded, q)
    ensures r in Draw(folded).rects && r.path == q
  {
    var root := Root(folded);
    RootShape(folded);
    RootHolds(folded, q);
    r := NodeAbove(root, [], q, PADDING as real, USABLE_WIDTH, CanvasHeight(root));
    assert [] + q == q;
    Drawn(folded, r);
  }

  /**
   From report to picture: the frames drawn for a balanced call graph are exactly the paths of its
   lines with samples, each as wide as its input count out of the count of the top-level lines.
   */
  lemma {:induction false} PictureShowsCallGraph(lines: seq<Line>, path: Path)
    requires Balanced(lines) && path != []
    ensures var input, total := InputAt(lines, path, 0, |lines|), ChildSum(lines, -1, 0, |lines|);
            var rects := Draw(FoldOf(lines)).rects;
            && (input > 0 <==> exists r :: r in rects && r.path == path)
            && (forall r :: r in rects && r.path == path ==> r.count == input && total > 0 && r.w == 1176.0 * input as real / total as real)
  {
    var folded := FoldOf(lines);
    FoldKeepsCounts(lines);
    SelfTimesPositive(lines, [], CallForest(lines), []);
    InclusivePositive(folded, path);
    RootCount(lines);
    forall r | r in Draw(folded).rects && r.path == path
      ensures r.count == Inclusive(folded, path) > 0 && Build(folded).count > 0 && r.w == 1176.0 * r.count as real / Build(folded).count as real
    {
      FrameShowsCount(folded, r);
      BuildHolds(folded, []);
    }
    if Visited(folded, path) { var r := VisitedPathDrawn(folded, path); }
  }

  lemma {:induction false} InclusiveWithinTotal(folded: seq<Folded>, path: Path)
    ensures Inclusive(folded, path) <= Inclusive(folded, [])
  {
    if folded != [] { InclusiveWithinTotal(folded[..|folded| - 1], path); }
  }

  // ---------- the order of the folded stacks does not matter ----------

  ghost predicate SameTrie(a: Trie, b: Trie) {
    forall q: Path :: Get(a, q) == Get(b, q)
  }

  lemma {:induction false} SameChildren(a: Trie, b: Trie, s: string)
    requires SameTrie(a, b)
    ensures s in a.children <==> s in b.children
    ensures CountOf(a, s) == CountOf(b, s)
    ensures s in a.children ==> SameTrie(a.children[s], b.children[s])
  {
    GetStep(a, s, []);
    GetStep(b, s, []);
    assert Get(a, [s] + []) == Get(b, [s] + []);
    if s in a.children {
      forall q: Path ensures Get(a.children[s], q) == Get(b.children[s], q) {
        GetStep(a, s, q);
        GetStep(b, s, q);
      }
    }
  }

  lemma {:induction false} SortedUnderOther(a: Trie, b: Trie)
    requires SameTrie(a, b) && WellFormed(b)
    ensures StrictlySorted(Comparison(a), SortedChildren(b))
  {
    SortedChildrenOrdered(b);
    var keys := SortedChildren(b);
    forall i, j | 0 <= i < j < |keys| ensures Comparison(a)(keys[i], keys[j]) {
      assert Comparison(b)(keys[i], keys[j]);
      SameChildren(a, b, keys[i]);
      SameChildren(a, b, keys[j]);
    }
  }

  lemma {:induction false} SameSortedChildren(a: Trie, b: Trie)
    requires SameTrie(a, b) && WellFormed(a) && WellFormed(b)
    ensures SortedChildren(a) == SortedChildren(b)
  {
    var left, right := SortedChildren(a), SortedChildren(b);
    SortedChildrenOrdered(a);
    SortedUnderOther(a, b);
    SortedChildrenKeep(a);
    SortedChildrenKeep(b);
    forall s ensures s in left <==> s in right { SameChildren(a, b, s); }
    ComparisonOrders(a);
    StrictlySortedUnique(Comparison(a), left, right);
  }

  lemma {:induction false} SameArrangeKeys(a: Trie, b: Trie, keys: seq<string>)
    requires SameTrie(a, b) && WellFormed(a) && WellFormed(b)
    ensures ArrangeKeys(a, keys) == ArrangeKeys(b, keys)
    decreases a, |keys|
  {
    if keys != [] {
      SameChildren(a, b, keys[0]);
      if keys[0] in a.children {
        SameArrange(a.children[keys[0]], b.children[keys[0]]);
        SameArrangeKeys(a, b, keys[1..]);
      }
    }
  }

  lemma {:induction false} SameArrange(a: Trie, b: Trie)
    requires SameTrie(a, b) && WellFormed(a) && WellFormed(b)
    ensures Arrange(a) == Arrange(b)
    decreases a, |a.order| + 1
  {
    SameSortedChildren(a, b);
    SameArrangeKeys(a, b, SortedChildren(a));
  }

  lemma {:induction false} InclusiveSnoc(folded: seq<Folded>, path: Path)
    requires folded != []
    ensures var n := |folded| - 1;
            Inclusive(folded, path) == Inclusive(folded[..n], path) + if path <= folded[n].frames then folded[n].count else 0
  {
  }

  lemma {:induction false} InclusiveWithout(folded: seq<Folded>, i: nat, path: Path)
    requires i < |folded|
    ensures Inclusive(folded, path) == Inclusive(folded[..i] + folded[i + 1..], path)
              + if path <= folded[i].frames then folded[i].count else 0
  {
    hide Inclusive;
    var n := |folded| - 1;
    var rest := folded[..i] + folded[i + 1..];
    InclusiveSnoc(folded, path);
    if i < n {
      InclusiveSnoc(rest, path);
      InclusiveWithout(folded[..n], i, path);
      assert rest[..n - 1] == folded[..n][..i] + folded[..n][i + 1..];
    } else {
      assert rest == folded[..n];
    }
  }

  lemma {:induction false} RemoveMultiset(folded: seq<Folded>, i: nat)
    requires i < |folded|
    ensures multiset(folded[..i] + folded[i + 1..]) == multiset(folded) - multiset{folded[i]}
  {
    assert folded == folded[..i] + [folded[i]] + folded[i + 1..];
  }

  lemma {:induction false} InclusivePermuted(f: seq<Folded>, g: seq<Folded>, path: Path)
    requires multiset(f) == multiset(g)
    ensures Inclusive(f, path) == Inclusive(g, path)
    decreases |f|
  {
    hide Inclusive;
    SameMembers(f, g);
    if f != [] {
      var n := |f| - 1;
      InclusiveSnoc(f, path);
      assert f[n] in g;
      var i :| 0 <= i < |g| && g[i] == f[n];
      RemoveMultiset(g, i);
      RemoveMultiset(f, n);
      assert f[..n] + f[n + 1..] == f[..n];
      InclusivePermuted(f[..n], g[..i] + g[i + 1..], path);
      InclusiveWithout(g, i, path);
    }
  }

  lemma {:induction false} HeaviestIsIn(folded: seq<Folded>, i: nat, skipRoot: bool)
    requires i < |folded|
    ensures PathWeight(folded[i].frames, skipRoot) <= MaxWeight(folded, skipRoot)
  {
    if i < |folded| - 1 { HeaviestIsIn(folded[..|folded| - 1], i, skipRoot); }
  }

  lemma {:induction false} MaxWeightBounded(f: seq<Folded>, g: seq<Folded>, skipRoot: bool)
    requires forall x :: x in f ==> x in g
    ensures MaxWeight(f, skipRoot) <= MaxWeight(g, skipRoot)
  {
    if f != [] {
      assert forall x :: x in f[..|f| - 1] ==> x in f;
      MaxWeightBounded(f[..|f| - 1], g, skipRoot);
      assert f[|f| - 1] in g;
      var i :| 0 <= i < |g| && g[i] == f[|f| - 1];
      HeaviestIsIn(g, i, skipRoot);
    }
  }

  lemma {:induction false} VisitedThrough(f: seq<Folded>, i: nat, q: Path)
    requires i < |f| && q <= f[i].frames
    ensures Visited(f, q)
  {
    if i < |f| - 1 { VisitedThrough(f[..|f| - 1], i, q); }
  }

  /** Which paths are visited depends only on the stacks there are. */
  lemma {:induction false} VisitedByMember(f: seq<Folded>, g: seq<Folded>, q: Path)
    requires Visited(f, q) && forall x :: x in f ==> x in g
    ensures Visited(g, q)
  {
    var n := |f| - 1;
    if q <= f[n].frames {
      assert f[n] in g;
      var i :| 0 <= i < |g| && g[i] == f[n];
      VisitedThrough(g, i, q);
    } else {
      assert forall x :: x in f[..n] ==> x in f;
      VisitedByMember(f[..n], g, q);
    }
  }

  lemma {:induction false} SameRoot(f: seq<Folded>, g: seq<Folded>)
    requires multiset(f) == multiset(g)
    ensures SameTrie(Root(f), Root(g))
  {
    SameMembers(f, g);
    forall q: Path ensures Get(Root(f), q) == Get(Root(g), q) {
      InclusivePermuted(f, g, q);
      BuildHolds(f, q);
      BuildHolds(g, q);
      if Visited(f, q) { VisitedByMember(f, g, q); }
      if Visited(g, q) { VisitedByMember(g, f, q); }
    }
  }

  lemma {:induction false} SameHeight(f: seq<Folded>, g: seq<Folded>)
    requires multiset(f) == multiset(g)
    ensures CanvasHeight(Root(f)) == CanvasHeight(Root(g))
  {
    SameMembers(f, g);
    RootShape(f);
    RootShape(g);
    MaxWeightBounded(f, g, true);
    MaxWeightBounded(g, f, true);
  }

  /** The picture depends only on the multiset of folded stacks. */
  lemma {:induction false} PictureIgnoresOrder(f: seq<Folded>, g: seq<Folded>)
    requires multiset(f) == multiset(g)
    ensures Draw(f) == Draw(g)
  {
    assert Arrange(Root(f)) == Arrange(Root(g)) && Root(f).count == Root(g).count by {
      RootShape(f);
      RootShape(g);
      SameRoot(f, g);
      SameArrange(Root(f), Root(g));
      assert Get(Root(f), []) == Get(Root(g), []);
    }
    SameHeight(f, g);
  }
}
