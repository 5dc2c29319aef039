/** Sums over sequences. */
module Counting {

  function Total<T>(xs: seq<T>, weight: T -> nat): nat {
    if xs == [] then 0 else Total(xs[..|xs| - 1], weight) + weight(xs[|xs| - 1])
  }

  function One(b: bool): nat { if b then 1 else 0 }

  lemma {:induction false} TotalUpdate<T>(xs: seq<T>, i: nat, x: T, weight: T -> nat)
    requires i < |xs|
    ensures Total(xs[i := x], weight) + weight(xs[i]) == Total(xs, weight) + weight(x)
  {
    var init := xs[..|xs| - 1];
    if i < |init| {
      assert xs[i := x][..|xs| - 1] == init[i := x];
      TotalUpdate(init, i, x, weight);
    } else {
      assert xs[i := x][..|xs| - 1] == init;
    }
  }

  lemma {:induction false} TotalSnoc<T>(xs: seq<T>, x: T, weight: T -> nat)
    ensures Total(xs + [x], weight) == Total(xs, weight) + weight(x)
  {
    assert (xs + [x])[..|xs|] == xs;
  }

  lemma {:induction false} TotalAtLeast<T>(xs: seq<T>, i: nat, weight: T -> nat)
    requires i < |xs|
    ensures weight(xs[i]) <= Total(xs, weight)
  {
    if i < |xs| - 1 { TotalAtLeast(xs[..|xs| - 1], i, weight); }
  }

  lemma {:induction false} ZeroTotal<T>(xs: seq<T>, weight: T -> nat)
    ensures Total(xs, weight) == 0 <==> forall i :: 0 <= i < |xs| ==> weight(xs[i]) == 0
  {
    if xs != [] {
      var n := |xs| - 1;
      ZeroTotal(xs[..n], weight);
      assert forall i :: 0 <= i < n ==> xs[..n][i] == xs[i];
      if Total(xs, weight) == 0 {
        forall i | 0 <= i < |xs| ensures weight(xs[i]) == 0 { TotalAtLeast(xs, i, weight); }
      } else if Total(xs[..n], weight) != 0 {
        var i :| 0 <= i < n && weight(xs[..n][i]) != 0;
        assert weight(xs[i]) != 0;
      }
    }
  }
}
