/** Comparing two asar inventories (internal/asar/asar.go): `DiffArchives`, `changed`, `indexByPath`. */
module AsarDiff {
  import opened Ordering
  import opened Asar

  type Index = map<string, FileEntry>

  datatype Diff = Diff(added: seq<FileEntry>, removed: seq<FileEntry>, changed: seq<FileEntry>)

  /** `changed`: trust the hashes when both entries carry one, otherwise compare sizes. */
  predicate Changed(before: FileEntry, after: FileEntry) {
    if before.sha256 != "" && after.sha256 != "" then before.sha256 != after.sha256
    else before.size != after.size
  }

  /** Two entries differ by their hashes, when both have one, and by their sizes when one has none. */
  ghost predicate Differ(before: FileEntry, after: FileEntry) {
    || (before.sha256 != "" && after.sha256 != "" && before.sha256 != after.sha256)
    || ((before.sha256 == "" || after.sha256 == "") && before.size != after.size)
  }

  /** Entries are filed under their own path. */
  ghost predicate Keyed(m: Index) {
    forall p :: p in m ==> m[p].path == p
  }

  /** The entries by path; for equal paths the last one wins. */
  function IndexOf(files: seq<FileEntry>): Index {
    if files == [] then map[] else IndexOf(files[..|files| - 1])[files[|files| - 1].path := files[|files| - 1]]
  }

  /** The index holds, for each path that occurs, the last entry with that path. */
  lemma {:induction false} IndexAt(files: seq<FileEntry>, p: string) returns (i: int)
    ensures p in IndexOf(files) ==>
              && 0 <= i < |files| && files[i] == IndexOf(files)[p] && files[i].path == p
              && forall j :: i < j < |files| ==> files[j].path != p
    ensures p !in IndexOf(files) ==> forall j :: 0 <= j < |files| ==> files[j].path != p
  {
    i := 0;
    if files != [] {
      var n := |files| - 1;
      if files[n].path == p {
        i := n;
      } else {
        i := IndexAt(files[..n], p);
      }
    }
  }

  lemma {:induction false} IndexKeyed(files: seq<FileEntry>)
    ensures Keyed(IndexOf(files))
  {
    hide IndexOf;
    forall p | p in IndexOf(files) ensures IndexOf(files)[p].path == p {
      var i := IndexAt(files, p);
    }
  }

  /** `indexByPath` */
  method IndexByPath(files: seq<FileEntry>) returns (m: Index)
    ensures m == IndexOf(files)
  {
    m := map[];
    for i := 0 to |files|
      invariant m == IndexOf(files[..i])
    {
      assert files[..i + 1][..i] == files[..i];
      m := m[files[i].path := files[i]];
    }
    assert files[..|files|] == files;
  }

  // ---------- which entries each list holds ----------

  ghost predicate IsAdded(before: Index, after: Index, e: FileEntry) {
    e.path in after && after[e.path] == e && e.path !in before
  }

  ghost predicate IsRemoved(before: Index, after: Index, e: FileEntry) {
    e.path in before && before[e.path] == e && e.path !in after
  }

  ghost predicate IsChanged(before: Index, after: Index, e: FileEntry) {
    e.path in after && after[e.path] == e && e.path in before && Differ(before[e.path], e)
  }

  ghost predicate Describes(d: Diff, before: Index, after: Index) {
    && Ascending(d.added) && Ascending(d.removed) && Ascending(d.changed)
    && (forall e :: e in d.added <==> IsAdded(before, after, e))
    && (forall e :: e in d.removed <==> IsRemoved(before, after, e))
    && (forall e :: e in d.changed <==> IsChanged(before, after, e))
  }

  /** The loop over the newer index. */
  method NewAndChanged(before: Index, after: Index) returns (added: seq<FileEntry>, changed: seq<FileEntry>)
    requires Keyed(after)
    ensures DistinctPaths(added) && DistinctPaths(changed)
    ensures forall e :: e in added <==> IsAdded(before, after, e)
    ensures forall e :: e in changed <==> IsChanged(before, after, e)
  {
    added, changed := [], [];
    var todo := after.Keys;
    while todo != {}
      invariant todo <= after.Keys
      invariant DistinctPaths(added) && DistinctPaths(changed)
      invariant forall e :: e in added <==> IsAdded(before, after, e) && e.path !in todo
      invariant forall e :: e in changed <==> IsChanged(before, after, e) && e.path !in todo
      decreases todo
    {
      var p :| p in todo;
      var e := after[p];
      if p !in before {
        added := Extended(added, e);
      } else if Changed(before[p], e) {
        changed := Extended(changed, e);
      }
      todo := todo - {p};
    }
  }

  function Extended(es: seq<FileEntry>, e: FileEntry): (r: seq<FileEntry>)
    ensures forall x :: x in r <==> x in es || x == e
    ensures DistinctPaths(es) && (forall x :: x in es ==> x.path != e.path) ==> DistinctPaths(r)
  {
    es + [e]
  }

  /** The loop over the older index. */
  method Gone(before: Index, after: Index) returns (removed: seq<FileEntry>)
    requires Keyed(before)
    ensures DistinctPaths(removed)
    ensures forall e :: e in removed <==> IsRemoved(before, after, e)
  {
    removed := [];
    var todo := before.Keys;
    while todo != {}
      invariant todo <= before.Keys
      invariant DistinctPaths(removed)
      invariant forall e :: e in removed <==> IsRemoved(before, after, e) && e.path !in todo
      decreases todo
    {
      var p :| p in todo;
      if p !in after {
        removed := Extended(removed, before[p]);
      }
      todo := todo - {p};
    }
  }

  /** `DiffArchives` */
  method DiffArchives(a: seq<FileEntry>, b: seq<FileEntry>) returns (d: Diff)
    ensures Describes(d, IndexOf(a), IndexOf(b))
  {
    var before := IndexByPath(a);
    var after := IndexByPath(b);
    IndexKeyed(a);
    IndexKeyed(b);
    var added, changed := NewAndChanged(before, after);
    var removed := Gone(before, after);
    SortByPath(added);
    SortByPath(removed);
    SortByPath(changed);
    d := Diff(Sort(ByPath(), added), Sort(ByPath(), removed), Sort(ByPath(), changed));
  }

  // ---------- applying a diff ----------

  function Overlay(m: Index, es: seq<FileEntry>): Index
    decreases |es|
  {
    if es == [] then m else Overlay(m[es[0].path := es[0]], es[1..])
  }

  function Without(m: Index, es: seq<FileEntry>): Index
    decreases |es|
  {
    if es == [] then m else Without(m - {es[0].path}, es[1..])
  }

  function Apply(m: Index, d: Diff): Index {
    Overlay(Overlay(Without(m, d.removed), d.added), d.changed)
  }

  ghost predicate Mentions(es: seq<FileEntry>, p: string) {
    exists e :: e in es && e.path == p
  }

  lemma {:induction false} OverlayAt(m: Index, es: seq<FileEntry>, p: string)
    requires DistinctPaths(es)
    ensures p in Overlay(m, es) <==> p in m || Mentions(es, p)
    ensures !Mentions(es, p) && p in m ==> Overlay(m, es)[p] == m[p]
    ensures forall e :: e in es && e.path == p ==> p in Overlay(m, es) && Overlay(m, es)[p] == e
    decreases |es|
  {
    if es != [] {
      assert forall e :: e in es <==> e == es[0] || e in es[1..];
      forall e | e in es[1..] ensures e.path != es[0].path {
        var k :| 0 <= k < |es[1..]| && es[1..][k] == e;
        assert es[k + 1] == e;
      }
      OverlayAt(m[es[0].path := es[0]], es[1..], p);
      if Mentions(es, p) {
        var e :| e in es && e.path == p;
        assert e == es[0] || Mentions(es[1..], p);
      }
      if Mentions(es[1..], p) {
        var e :| e in es[1..] && e.path == p;
        assert e in es;
      }
    }
  }

  lemma {:induction false} WithoutAt(m: Index, es: seq<FileEntry>, p: string)
    ensures p in Without(m, es) <==> p in m && !Mentions(es, p)
    ensures p in Without(m, es) ==> Without(m, es)[p] == m[p]
    decreases |es|
  {
    if es != [] {
      assert forall e :: e in es <==> e == es[0] || e in es[1..];
      WithoutAt(m - {es[0].path}, es[1..], p);
      assert es[0].path == p ==> Mentions(es, p);
      if Mentions(es, p) {
        var e :| e in es && e.path == p;
        assert e == es[0] || Mentions(es[1..], p);
      }
      if Mentions(es[1..], p) {
        var e :| e in es[1..] && e.path == p;
        assert e in es;
      }
    }
  }

  lemma {:induction false} SortedPathsDistinct(es: seq<FileEntry>)
    requires Ascending(es)
    ensures DistinctPaths(es)
  {
    forall i, j | 0 <= i < j < |es| ensures es[i].path != es[j].path {
      LessAsymmetric(es[i].path, es[j].path);
    }
  }

  /** Which lists mention a path. */
  lemma {:induction false} DiffMentions(before: Index, after: Index, d: Diff, p: string)
    requires Keyed(before) && Keyed(after) && Describes(d, before, after)
    ensures Mentions(d.added, p) <==> p in after && p !in before
    ensures Mentions(d.removed, p) <==> p in before && p !in after
    ensures Mentions(d.changed, p) <==> p in after && p in before && Differ(before[p], after[p])
  {
    if p in after {
      assert after[p].path == p;
      assert IsAdded(before, after, after[p]) <==> after[p] in d.added;
      assert IsChanged(before, after, after[p]) <==> after[p] in d.changed;
    }
    if p in before {
      assert before[p].path == p;
      assert IsRemoved(before, after, before[p]) <==> before[p] in d.removed;
    }
  }

  /**
   Applying the diff to the older archive gives the newer one's paths; an entry differs from the
   newer one only where `changed` judges the two equal.
   */
  lemma {:induction false} ApplyDiff(before: Index, after: Index, d: Diff, p: string)
    requires Keyed(before) && Keyed(after) && Describes(d, before, after)
    ensures p in Apply(before, d) <==> p in after
    ensures p in after ==>
              Apply(before, d)[p] == if p in before && !Differ(before[p], after[p]) then before[p] else after[p]
  {
    var kept := Without(before, d.removed);
    var grown := Overlay(kept, d.added);
    DiffMentions(before, after, d, p);
    SortedPathsDistinct(d.added);
    SortedPathsDistinct(d.changed);
    WithoutAt(before, d.removed, p);
    OverlayAt(kept, d.added, p);
    OverlayAt(grown, d.changed, p);
    if p in after {
      assert after[p].path == p;
      assert IsAdded(before, after, after[p]) <==> after[p] in d.added;
      assert IsChanged(before, after, after[p]) <==> after[p] in d.changed;
    }
  }

  /** `Empty` */
  predicate Empty(d: Diff) {
    |d.added| == 0 && |d.removed| == 0 && |d.changed| == 0
  }

  /** The diff is empty exactly when the paths agree and no entry is judged changed. */
  lemma {:induction false} EmptyDiff(before: Index, after: Index, d: Diff)
    requires Keyed(before) && Keyed(after) && Describes(d, before, after)
    ensures Empty(d) <==> before.Keys == after.Keys && forall p :: p in before && p in after ==> !Differ(before[p], after[p])
  {
    forall p ensures Mentions(d.added, p) <==> p in after && p !in before
      ensures Mentions(d.removed, p) <==> p in before && p !in after
      ensures Mentions(d.changed, p) <==> p in after && p in before && Differ(before[p], after[p])
    {
      DiffMentions(before, after, d, p);
    }
    if d.added != [] { assert Mentions(d.added, d.added[0].path); }
    if d.removed != [] { assert Mentions(d.removed, d.removed[0].path); }
    if d.changed != [] { assert Mentions(d.changed, d.changed[0].path); }
    if Empty(d) {
      forall p ensures p in before <==> p in after { assert !Mentions(d.added, p) && !Mentions(d.removed, p); }
    }
  }
}
