/**
 Laying the merged tree out as an SVG (internal/flamegraph/render.go): `sortedChildren`,
 `treeDepth`, `renderRow` and the canvas of `RenderSVG`, over exact reals.
 */
module FlameLayout {
  import opened CallGraph
  import opened FlameTrie
  import opened Ordering

  const SVG_WIDTH := 1200
  const ROW_HEIGHT := 16
  const PADDING := 12

  /** One placed frame; `drawFrame` leaves out those that are not `visible`. */
  datatype Rect = Rect(path: Path, count: nat, x: real, w: real, y: int, visible: bool)

  // ---------- the order of children ----------

  function CountOf(n: Trie, sym: string): nat {
    if sym in n.children then n.children[sym].count else 0
  }

  /** The comparison of `sortedChildren`: larger count first, then by name. */
  predicate Before(n: Trie, a: string, b: string) {
    if CountOf(n, a) != CountOf(n, b) then CountOf(n, a) > CountOf(n, b) else Less(a, b)
  }

  function Comparison(n: Trie): (string, string) -> bool {
    (a: string, b: string) => Before(n, a, b)
  }

  function SortedChildren(n: Trie): seq<string> {
    Sort(Comparison(n), n.order)
  }

  // ---------- well-formed tries ----------

  ghost function SumOf(n: Trie, keys: seq<string>): nat {
    if keys == [] then 0 else CountOf(n, keys[0]) + SumOf(n, keys[1..])
  }

  /** The order lists the children once each, under their own names, and they fit in their parent. */
  ghost predicate WellFormed(n: Trie)
    decreases n
  {
    && Distinct(n.order)
    && (forall s :: s in n.order <==> s in n.children)
    && SumOf(n, n.order) <= n.count
    && (forall s :: s in n.children ==>
          n.children[s].sym == s && WellFormed(n.children[s]))
  }

  lemma {:induction false} SumFrame(n: Trie, m: Trie, keys: seq<string>)
    requires forall s :: s in keys ==> CountOf(n, s) == CountOf(m, s)
    ensures SumOf(n, keys) == SumOf(m, keys)
  {
    if keys != [] { SumFrame(n, m, keys[1..]); }
  }

  lemma {:induction false} SumAppend(n: Trie, keys: seq<string>, s: string)
    ensures SumOf(n, keys + [s]) == SumOf(n, keys) + CountOf(n, s)
  {
    if keys != [] {
      assert (keys + [s])[1..] == keys[1..] + [s];
      SumAppend(n, keys[1..], s);
    }
  }

  lemma {:induction false} SumBump(n: Trie, m: Trie, keys: seq<string>, s: string, c: nat)
    requires Distinct(keys) && s in keys && CountOf(m, s) == CountOf(n, s) + c
    requires forall t :: t in keys && t != s ==> CountOf(n, t) == CountOf(m, t)
    ensures SumOf(m, keys) == SumOf(n, keys) + c
  {
    if keys[0] == s {
      assert forall t :: t in keys[1..] ==> t != s;
      SumFrame(n, m, keys[1..]);
    } else {
      SumBump(n, m, keys[1..], s, c);
    }
  }

  lemma {:induction false} AddCounts(n: Trie, frames: Path, c: nat, s: string)
    requires frames != []
    ensures CountOf(Add(n, frames, c), s) == CountOf(n, s) + if s == frames[0] then c else 0
    ensures s in Add(n, frames, c).children <==> s in n.children || s == frames[0]
  {
  }

  lemma {:induction false} AddSum(n: Trie, frames: Path, c: nat)
    requires Distinct(n.order) && (forall s :: s in n.order <==> s in n.children) && frames != []
    ensures var m := Add(n, frames, c);
            Distinct(m.order) && (forall s :: s in m.order <==> s in m.children) && SumOf(m, m.order) == SumOf(n, n.order) + c
  {
    var m, s := Add(n, frames, c), frames[0];
    forall t ensures CountOf(m, t) == CountOf(n, t) + (if t == s then c else 0)
      ensures t in m.children <==> t in n.children || t == s
    {
      AddCounts(n, frames, c, t);
    }
    if s in n.children {
      SumBump(n, m, n.order, s, c);
    } else {
      SumFrame(n, m, n.order);
      SumAppend(m, n.order, s);
    }
  }

  lemma {:induction false} AddWellFormed(n: Trie, frames: Path, c: nat)
    requires WellFormed(n)
    ensures WellFormed(Add(n, frames, c))
    decreases |frames|
  {
    if frames != [] {
      AddWellFormed(ChildOf(n, frames[0]), frames[1..], c);
      AddSum(n, frames, c);
    } else {
      SumFrame(n, Add(n, frames, c), n.order);
    }
  }

  lemma {:induction false} BuildWellFormed(folded: seq<Folded>)
    ensures WellFormed(Build(folded))
  {
    if folded != [] {
      var last := folded[|folded| - 1];
      BuildWellFormed(folded[..|folded| - 1]);
      AddWellFormed(Build(folded[..|folded| - 1]), last.frames, last.count);
    }
  }

  // ---------- sorting the children ----------

  lemma {:induction false} ComparisonOrders(n: Trie)
    ensures WeakOrder(Comparison(n))
  {
    var less := Comparison(n);
    forall a, b ensures !(less(a, b) && less(b, a)) { LessAsymmetric(a, b); }
    forall a, b, c | !less(a, b) && !less(b, c) ensures !less(a, c) { NotBeforeTransitive(n, a, b, c); }
  }

  lemma {:induction false} NotBeforeTransitive(n: Trie, a: string, b: string, c: string)
    requires !Before(n, a, b) && !Before(n, b, c)
    ensures !Before(n, a, c)
  {
    LessTotal(a, b);
    LessTotal(b, c);
    LessAsymmetric(a, c);
    if Less(c, b) && Less(b, a) { LessTransitive(c, b, a); }
  }

  lemma {:induction false} SumInsert(n: Trie, less: (string, string) -> bool, s: string, keys: seq<string>)
    ensures SumOf(n, Insert(less, s, keys)) == CountOf(n, s) + SumOf(n, keys)
  {
    if keys != [] && less(keys[0], s) { SumInsert(n, less, s, keys[1..]); }
  }

  lemma {:induction false} SumSort(n: Trie, less: (string, string) -> bool, keys: seq<string>)
    ensures SumOf(n, Sort(less, keys)) == SumOf(n, keys)
  {
    if keys != [] {
      SumSort(n, less, keys[1..]);
      SumInsert(n, less, keys[0], Sort(less, keys[1..]));
    }
  }

  /** Sorting keeps the children: the same names, once each, with the same total. */
  lemma {:induction false} SortedChildrenKeep(n: Trie)
    requires WellFormed(n)
    ensures Distinct(SortedChildren(n))
    ensures forall s :: s in SortedChildren(n) <==> s in n.children
    ensures SumOf(n, SortedChildren(n)) <= n.count
  {
    SumSort(n, Comparison(n), n.order);
    SortPermutes(Comparison(n), n.order);
    DistinctPermuted(n.order, SortedChildren(n));
    SameMembers(n.order, SortedChildren(n));
  }

  /** Children by descending count, and by ascending name where counts are equal. */
  ghost predicate InDrawingOrder(n: Trie, keys: seq<string>) {
    forall i, j :: 0 <= i < j < |keys| && keys[i] in n.children && keys[j] in n.children ==>
      || n.children[keys[i]].count > n.children[keys[j]].count
      || (n.children[keys[i]].count == n.children[keys[j]].count && Less(keys[i], keys[j]))
  }

  /** Larger children come first, ties by name, with no two children tied. */
  lemma {:induction false} SortedChildrenOrdered(n: Trie)
    requires WellFormed(n)
    ensures StrictlySorted(Comparison(n), SortedChildren(n)) && InDrawingOrder(n, SortedChildren(n))
  {
    var keys := SortedChildren(n);
    ComparisonOrders(n);
    SortSorted(Comparison(n), n.order);
    SortedChildrenKeep(n);
    forall i, j | 0 <= i < j < |keys| ensures Before(n, keys[i], keys[j]) {
      assert !Comparison(n)(keys[j], keys[i]);
      LessTotal(keys[i], keys[j]);
    }
  }

  // ---------- placing the frames ----------

  /** The tree in drawing order: the first child, what hangs from it, and the children after it. */
  datatype Shape = Nothing | Child(sym: string, count: nat, kids: Shape, rest: Shape)

  function Arrange(n: Trie): Shape
    decreases n, |n.order| + 1
  {
    ArrangeKeys(n, SortedChildren(n))
  }

  function ArrangeKeys(n: Trie, keys: seq<string>): Shape
    decreases n, |keys|
  {
    if keys == [] || keys[0] !in n.children then Nothing
    else
      var c := n.children[keys[0]];
      Child(keys[0], c.count, Arrange(c), ArrangeKeys(n, keys[1..]))
  }

  /** `w` in `renderRow`: the part of the parent's width due to a child's samples. */
  function Share(width: real, part: nat, whole: nat): real {
    if whole == 0 then 0.0 else width * part as real / whole as real
  }

  function FrameRect(count: nat, path: Path, x: real, w: real, height: int): Rect {
    Rect(path, count, x, w, height - PADDING - |path| * ROW_HEIGHT, w >= 0.4)
  }

  /** Appends the frames of a row of siblings, each followed by the rows above it. */
  function Place(b: seq<Rect>, shape: Shape, path: Path, x: real, width: real, whole: nat, height: int): seq<Rect>
    decreases shape
  {
    if shape.Nothing? then b
    else
      var here, w := path + [shape.sym], Share(width, shape.count, whole);
      Place(Place(b + [FrameRect(shape.count, here, x, w, height)], shape.kids, here, x, w, shape.count, height),
            shape.rest, path, x + w, width, whole, height)
  }

  method RenderRow(b: seq<Rect>, n: Trie, path: Path, x: real, width: real, height: int) returns (rects: seq<Rect>)
    requires WellFormed(n)
    ensures rects == Place(b, Arrange(n), path, x, width, n.count, height)
    decreases n, |n.order| + 1
  {
    SortedChildrenKeep(n);
    rects := RenderChildren(b, n, SortedChildren(n), path, x, width, height);
  }

  /** The loop of `renderRow`, over the children in drawing order. */
  method RenderChildren(b: seq<Rect>, n: Trie, keys: seq<string>, path: Path, x: real, width: real, height: int)
    returns (rects: seq<Rect>)
    requires forall s :: s in keys ==> s in n.children && WellFormed(n.children[s])
    ensures rects == Place(b, ArrangeKeys(n, keys), path, x, width, n.count, height)
    decreases n, |keys|
  {
    rects := b;
    var childX := x;
    var k := 0;
    assert keys[0..] == keys;
    while k < |keys|
      invariant 0 <= k <= |keys|
      invariant Place(rects, ArrangeKeys(n, keys[k..]), path, childX, width, n.count, height)
             == Place(b, ArrangeKeys(n, keys), path, x, width, n.count, height)
    {
      PlaceStep(rects, n, keys, k, path, childX, width, height);
      var c := n.children[keys[k]];
      var w := Share(width, c.count, n.count);
      rects := RenderRow(rects + [FrameRect(c.count, path + [keys[k]], childX, w, height)], c, path + [keys[k]], childX, w, height);
      childX, k := childX + w, k + 1;
    }
  }

  lemma {:induction false} PlaceStep(b: seq<Rect>, n: Trie, keys: seq<string>, k: nat, path: Path, x: real, width: real, height: int)
    requires k < |keys| && keys[k] in n.children
    ensures var c := n.children[keys[k]];
            var w := Share(width, c.count, n.count);
            Place(b, ArrangeKeys(n, keys[k..]), path, x, width, n.count, height)
            == Place(Place(b + [FrameRect(c.count, path + [keys[k]], x, w, height)], Arrange(c), path + [keys[k]], x, w, c.count, height),
                     ArrangeKeys(n, keys[k + 1..]), path, x + w, width, n.count, height)
  {
    assert keys[k..][0] == keys[k] && keys[k..][1..] == keys[k + 1..];
  }

  /** Whether a frame is one of those placed. */
  ghost predicate Placed(shape: Shape, path: Path, x: real, width: real, whole: nat, height: int, r: Rect)
    decreases shape
  {
    shape.Child? &&
    var here, w := path + [shape.sym], Share(width, shape.count, whole);
    || r == FrameRect(shape.count, here, x, w, height)
    || Placed(shape.kids, here, x, w, shape.count, height, r)
    || Placed(shape.rest, path, x + w, width, whole, height, r)
  }

  lemma {:induction false} PlaceHolds(b: seq<Rect>, shape: Shape, path: Path, x: real, width: real, whole: nat, height: int, r: Rect)
    ensures r in Place(b, shape, path, x, width, whole, height)
       <==> r in b || Placed(shape, path, x, width, whole, height, r)
    decreases shape
  {
    if shape.Child? {
      var here, w := path + [shape.sym], Share(width, shape.count, whole);
      var b1 := b + [FrameRect(shape.count, here, x, w, height)];
      PlaceHolds(b1, shape.kids, here, x, w, shape.count, height, r);
      PlaceHolds(Place(b1, shape.kids, here, x, w, shape.count, height), shape.rest, path, x + w, width, whole, height, r);
    }
  }

  // ---------- spans nest and never overlap ----------

  ghost function ShapeSum(shape: Shape): nat {
    if shape.Nothing? then 0 else shape.count + ShapeSum(shape.rest)
  }

  ghost predicate Named(shape: Shape, sym: string) {
    shape.Child? && (shape.sym == sym || Named(shape.rest, sym))
  }

  /** Siblings have different names, and children never outweigh their parent. */
  ghost predicate Fits(shape: Shape) {
    shape.Nothing? ||
    (!Named(shape.rest, shape.sym) && ShapeSum(shape.kids) <= shape.count && Fits(shape.kids) && Fits(shape.rest))
  }

  lemma {:induction false} ArrangeKeysFits(n: Trie, keys: seq<string>)
    requires WellFormed(n) && Distinct(keys) && forall s :: s in keys ==> s in n.children
    ensures Fits(ArrangeKeys(n, keys)) && ShapeSum(ArrangeKeys(n, keys)) == SumOf(n, keys)
    ensures forall s :: Named(ArrangeKeys(n, keys), s) <==> s in keys
    decreases n, |keys|
  {
    if keys != [] {
      ArrangeFits(n.children[keys[0]]);
      ArrangeKeysFits(n, keys[1..]);
      assert keys[0] !in keys[1..];
    }
  }

  lemma {:induction false} ArrangeFits(n: Trie)
    requires WellFormed(n)
    ensures Fits(Arrange(n)) && ShapeSum(Arrange(n)) <= n.count
    decreases n, |n.order| + 1
  {
    SortedChildrenKeep(n);
    ArrangeKeysFits(n, SortedChildren(n));
  }

  lemma {:induction false} ShareAdds(width: real, a: nat, b: nat, whole: nat)
    ensures Share(width, a + b, whole) == Share(width, a, whole) + Share(width, b, whole)
  {
    if whole > 0 {
      var n := whole as real;
      assert width * (a + b) as real == width * a as real + width * b as real;
      assert (width * a as real + width * b as real) / n == width * a as real / n + width * b as real / n;
    }
  }

  lemma {:induction false} ShareBounds(width: real, part: nat, whole: nat)
    requires width >= 0.0 && part <= whole
    ensures 0.0 <= Share(width, part, whole) <= width
  {
    if whole > 0 {
      MulMonotone(width, part as real, whole as real);
      DivMonotone(width * part as real, width * whole as real, whole as real);
      MulDiv(width, whole as real);
    }
  }

  lemma {:induction false} MulMonotone(w: real, p: real, n: real)
    requires 0.0 <= w && 0.0 <= p <= n
    ensures 0.0 <= w * p <= w * n
  {
    assert w * (n - p) >= 0.0;
  }

  lemma {:induction false} DivMonotone(a: real, b: real, n: real)
    requires 0.0 <= a <= b && n > 0.0
    ensures 0.0 <= a / n <= b / n
  {
  }

  lemma {:induction false} MulDiv(w: real, n: real)
    requires n > 0.0
    ensures w * n / n == w
  {
  }

  ghost predicate Inside(r: Rect, x: real, w: real) {
    0.0 <= r.w && x <= r.x && r.x + r.w <= x + w
  }

  /** The frame belongs to the subtree of a named child of `path`. */
  ghost predicate Above(r: Rect, path: Path, shape: Shape) {
    |path| < |r.path| && r.path[..|path|] == path && Named(shape, r.path[|path|])
  }

  lemma {:induction false} AboveChild(r: Rect, path: Path, sym: string, kids: Shape)
    requires Above(r, path + [sym], kids)
    ensures r.path[..|path|] == path && r.path[|path|] == sym
  {
    assert r.path[..|path|] == (path + [sym])[..|path|];
    assert r.path[|path|] == r.path[..|path| + 1][|path|];
  }

  /** Every placed frame stays within the span shared out to its row. */
  lemma {:induction false} PlacedInside(shape: Shape, path: Path, x: real, width: real, whole: nat, height: int, r: Rect)
    requires Fits(shape) && width >= 0.0 && ShapeSum(shape) <= whole
    requires Placed(shape, path, x, width, whole, height, r)
    ensures Inside(r, x, Share(width, ShapeSum(shape), whole)) && Above(r, path, shape)
    decreases shape
  {
    var here, w := path + [shape.sym], Share(width, shape.count, whole);
    ShareBounds(width, shape.count, whole);
    ShareBounds(width, ShapeSum(shape.rest), whole);
    ShareAdds(width, shape.count, ShapeSum(shape.rest), whole);
    if Placed(shape.kids, here, x, w, shape.count, height, r) {
      PlacedInside(shape.kids, here, x, w, shape.count, height, r);
      ShareBounds(w, ShapeSum(shape.kids), shape.count);
      AboveChild(r, path, shape.sym, shape.kids);
    } else if Placed(shape.rest, path, x + w, width, whole, height, r) {
      PlacedInside(shape.rest, path, x + w, width, whole, height, r);
    } else {
      assert r.path[..|path|] == path;
    }
  }

  /** A frame lies within its ancestors, and beside every frame it is not related to. */
  ghost predicate PairOk(a: Rect, b: Rect) {
    && (a.path < b.path ==> Inside(b, a.x, a.w))
    && (!(a.path <= b.path) && !(b.path <= a.path) ==> a.x + a.w <= b.x || b.x + b.w <= a.x)
  }

  /** Where a frame sits relative to the first child of a row. */
  ghost predicate InFirst(shape: Shape, path: Path, x: real, width: real, whole: nat, height: int, r: Rect)
    requires shape.Child?
  {
    var here, w := path + [shape.sym], Share(width, shape.count, whole);
    r == FrameRect(shape.count, here, x, w, height) || Placed(shape.kids, here, x, w, shape.count, height, r)
  }

  lemma {:induction false} FirstInside(shape: Shape, path: Path, x: real, width: real, whole: nat, height: int, r: Rect)
    requires Fits(shape) && width >= 0.0 && ShapeSum(shape) <= whole && shape.Child?
    requires InFirst(shape, path, x, width, whole, height, r)
    ensures Inside(r, x, Share(width, shape.count, whole))
    ensures |r.path| > |path| && r.path[..|path|] == path && r.path[|path|] == shape.sym
    ensures path + [shape.sym] <= r.path
  {
    var here, w := path + [shape.sym], Share(width, shape.count, whole);
    ShareBounds(width, shape.count, whole);
    if r != FrameRect(shape.count, here, x, w, height) {
      PlacedInside(shape.kids, here, x, w, shape.count, height, r);
      ShareBounds(w, ShapeSum(shape.kids), shape.count);
      AboveChild(r, path, shape.sym, shape.kids);
    }
  }

  lemma {:induction false} FirstBesideRest(shape: Shape, path: Path, x: real, width: real, whole: nat, height: int, a: Rect, b: Rect)
    requires Fits(shape) && width >= 0.0 && ShapeSum(shape) <= whole && shape.Child?
    requires InFirst(shape, path, x, width, whole, height, a)
    requires Placed(shape.rest, path, x + Share(width, shape.count, whole), width, whole, height, b)
    ensures PairOk(a, b) && PairOk(b, a)
  {
    FirstInside(shape, path, x, width, whole, height, a);
    PlacedInside(shape.rest, path, x + Share(width, shape.count, whole), width, whole, height, b);
    assert a.path[|path|] != b.path[|path|];
  }

  lemma {:induction false} PlacedPair(shape: Shape, path: Path, x: real, width: real, whole: nat, height: int, a: Rect, b: Rect)
    requires Fits(shape) && width >= 0.0 && ShapeSum(shape) <= whole
    requires Placed(shape, path, x, width, whole, height, a) && Placed(shape, path, x, width, whole, height, b)
    ensures PairOk(a, b)
    decreases shape
  {
    var here, w := path + [shape.sym], Share(width, shape.count, whole);
    ShareBounds(width, shape.count, whole);
    var aFirst, bFirst := InFirst(shape, path, x, width, whole, height, a), InFirst(shape, path, x, width, whole, height, b);
    if aFirst && bFirst {
      FirstInside(shape, path, x, width, whole, height, a);
      FirstInside(shape, path, x, width, whole, height, b);
      if Placed(shape.kids, here, x, w, shape.count, height, a) && Placed(shape.kids, here, x, w, shape.count, height, b) {
        PlacedPair(shape.kids, here, x, w, shape.count, height, a, b);
      }
    } else if aFirst {
      FirstBesideRest(shape, path, x, width, whole, height, a, b);
    } else if bFirst {
      FirstBesideRest(shape, path, x, width, whole, height, b, a);
    } else {
      PlacedPair(shape.rest, path, x + w, width, whole, height, a, b);
    }
  }
}
