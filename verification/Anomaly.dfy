/**
 The rolling-baseline detector of internal/anomaly/anomaly.go over exact reals: the incremental
 EWMA loop against the weighted mean and the weighted variance about that mean.
 */
module Anomaly {
  import opened Basics
  import opened Ordering

  const ALPHA: real := 0.3

  datatype Point = Point(value: real, at: int)

  datatype Finding = Finding(key: string, latest: real, mean: real, stdDev: real, z: real, samples: nat)

  // ---------- the exponential weights ----------

  function Pow(b: real, k: nat): real {
    if k == 0 then 1.0 else b * Pow(b, k - 1)
  }

  /** The weight of observation `i` among the first `n`: alpha per step of age, the rest for the first. */
  function WeightOf(n: nat, i: nat): real
    requires i < n
  {
    if i == 0 then Pow(1.0 - ALPHA, n - 1) else ALPHA * Pow(1.0 - ALPHA, n - 1 - i)
  }

  /** Sum over the first `k` of `n` observations of weight times (x - c) to the power 0, 1 or 2. */
  ghost function Moment(xs: seq<real>, n: nat, k: nat, c: real, power: nat): real
    requires k <= n <= |xs|
  {
    if k == 0 then 0.0
    else Moment(xs, n, k - 1, c, power) + WeightOf(n, k - 1) * Pow(xs[k - 1] - c, power)
  }

  /** The exponentially weighted mean of the baseline. */
  ghost function WeightedMean(xs: seq<real>): real {
    Moment(xs, |xs|, |xs|, 0.0, 1)
  }

  /** The weighted variance about a point. */
  ghost function WeightedSquares(xs: seq<real>, c: real): real {
    Moment(xs, |xs|, |xs|, c, 2)
  }

  /** One more observation scales the old weights by 1 - alpha and gets weight alpha itself. */
  lemma {:induction false} MomentScales(xs: seq<real>, n: nat, k: nat, c: real, power: nat)
    requires 0 < n && k <= n < |xs|
    ensures Moment(xs, n + 1, k, c, power) == (1.0 - ALPHA) * Moment(xs, n, k, c, power)
  {
    if k > 0 {
      MomentScales(xs, n, k - 1, c, power);
      assert WeightOf(n + 1, k - 1) == (1.0 - ALPHA) * WeightOf(n, k - 1);
      var before, w, d := Moment(xs, n, k - 1, c, power), WeightOf(n, k - 1), Pow(xs[k - 1] - c, power);
      assert (1.0 - ALPHA) * before + ((1.0 - ALPHA) * w) * d == (1.0 - ALPHA) * (before + w * d);
    }
  }

  lemma {:induction false} MomentGrows(xs: seq<real>, n: nat, c: real, power: nat)
    requires 0 < n < |xs|
    ensures Moment(xs, n + 1, n + 1, c, power)
         == (1.0 - ALPHA) * Moment(xs, n, n, c, power) + ALPHA * Pow(xs[n] - c, power)
  {
    MomentScales(xs, n, n, c, power);
  }

  // ---------- the loop computes them ----------

  /** The loop's two variables. */
  datatype Baseline = Baseline(mean: real, variance: real)

  function Step(s: Baseline, x: real): Baseline {
    var diff := x - s.mean;
    Baseline(s.mean + ALPHA * diff, (1.0 - ALPHA) * (s.variance + ALPHA * (diff * diff)))
  }

  /** The state of the loop after the first `n` observations. */
  function Ewma(xs: seq<real>, n: nat): Baseline
    requires 0 < n <= |xs|
  {
    if n == 1 then Baseline(xs[0], 0.0) else Step(Ewma(xs, n - 1), xs[n - 1])
  }

  lemma {:induction false} WeightsSumToOne(xs: seq<real>, n: nat)
    requires 0 < n <= |xs|
    ensures Moment(xs, n, n, 0.0, 0) == 1.0
  {
    if n > 1 {
      WeightsSumToOne(xs, n - 1);
      MomentGrows(xs, n - 1, 0.0, 0);
    } else {
      assert Moment(xs, 1, 0, 0.0, 0) == 0.0;
    }
  }

  lemma {:induction false} MeanIsWeighted(xs: seq<real>, n: nat)
    requires 0 < n <= |xs|
    ensures Ewma(xs, n).mean == Moment(xs, n, n, 0.0, 1)
  {
    if n > 1 {
      MeanIsWeighted(xs, n - 1);
      MomentGrows(xs, n - 1, 0.0, 1);
      assert Pow(xs[n - 1] - 0.0, 1) == xs[n - 1];
    } else {
      assert Moment(xs, 1, 0, 0.0, 1) == 0.0;
      assert Pow(xs[0] - 0.0, 1) == xs[0];
    }
  }

  lemma {:induction false} Square(d: real)
    ensures Pow(d, 2) == d * d
  {
    assert Pow(d, 1) == d;
  }

  /** A variance together with the squared distance of its mean from `c`. */
  function About(s: Baseline, c: real): real {
    s.variance + (s.mean - c) * (s.mean - c)
  }

  /** One step of the recurrence, seen from any point `c`. */
  lemma {:induction false} StepAbout(s: Baseline, x: real, c: real)
    ensures (1.0 - ALPHA) * About(s, c) + ALPHA * Pow(x - c, 2) == About(Step(s, x), c)
  {
    Square(x - c);
    var u, d := s.mean - c, x - s.mean;
    assert x - c == u + d && Step(s, x).mean - c == u + ALPHA * d;
    assert (u + d) * (u + d) == u * u + 2.0 * (u * d) + d * d;
    assert (u + ALPHA * d) * (u + ALPHA * d) == u * u + 2.0 * ALPHA * (u * d) + ALPHA * ALPHA * (d * d);
  }

  lemma {:induction false} FirstAbout(x: real, c: real)
    ensures 0.0 + 1.0 * Pow(x - c, 2) == About(Baseline(x, 0.0), c)
  {
    Square(x - c);
  }

  /** The weighted squares about any point: the variance plus the squared distance from the mean. */
  lemma {:induction false} SquaresDecompose(xs: seq<real>, n: nat, c: real)
    requires 0 < n <= |xs|
    ensures Moment(xs, n, n, c, 2) == About(Ewma(xs, n), c)
  {
    if n > 1 {
      SquaresDecompose(xs, n - 1, c);
      MomentGrows(xs, n - 1, c, 2);
      StepAbout(Ewma(xs, n - 1), xs[n - 1], c);
    } else {
      assert Moment(xs, 1, 0, c, 2) == 0.0 && WeightOf(1, 0) == 1.0;
      FirstAbout(xs[0], c);
    }
  }

  /** The loop's mean and variance are exactly the weighted mean and the weighted variance about it. */
  lemma {:induction false} EwmaIsWeighted(xs: seq<real>)
    requires xs != []
    ensures Moment(xs, |xs|, |xs|, 0.0, 0) == 1.0
    ensures var Baseline(mean, variance) := Ewma(xs, |xs|);
            mean == WeightedMean(xs) && variance == WeightedSquares(xs, mean)
  {
    WeightsSumToOne(xs, |xs|);
    MeanIsWeighted(xs, |xs|);
    SquaresDecompose(xs, |xs|, Ewma(xs, |xs|).mean);
  }

  // ---------- bounds ----------

  lemma {:induction false} MeanWithinExtremes(xs: seq<real>, n: nat, lo: real, hi: real)
    requires 0 < n <= |xs| && forall i :: 0 <= i < n ==> lo <= xs[i] <= hi
    ensures lo <= Ewma(xs, n).mean <= hi
  {
    if n > 1 { MeanWithinExtremes(xs, n - 1, lo, hi); }
  }

  ghost predicate AllEqual(xs: seq<real>, n: nat)
    requires n <= |xs|
  {
    forall i :: 0 <= i < n ==> xs[i] == xs[0]
  }

  lemma {:induction false} VarianceZeroIffFlat(xs: seq<real>, n: nat)
    requires 0 < n <= |xs|
    ensures Ewma(xs, n).variance >= 0.0
    ensures Ewma(xs, n).variance == 0.0 <==> AllEqual(xs, n)
    ensures AllEqual(xs, n) ==> Ewma(xs, n).mean == xs[0]
  {
    if n > 1 {
      VarianceZeroIffFlat(xs, n - 1);
      var Baseline(m, v) := Ewma(xs, n - 1);
      var diff := xs[n - 1] - m;
      SquareSign(diff, diff * diff);
      if AllEqual(xs, n - 1) && xs[n - 1] == xs[0] { assert AllEqual(xs, n); }
      if AllEqual(xs, n) { assert AllEqual(xs, n - 1) && xs[n - 1] == xs[0]; }
    }
  }

  lemma {:induction false} PositiveProduct(a: real, b: real)
    requires a > 0.0 && b > 0.0
    ensures a * b > 0.0
  {
  }

  lemma {:induction false} NegatedProduct(a: real, b: real)
    ensures (-a) * b == -(a * b)
  {
  }

  lemma {:induction false} ProductSign(a: real, b: real, v: real)
    requires a * b == v
    ensures (a > 0.0 && b > 0.0) || (a < 0.0 && b < 0.0) ==> v > 0.0
    ensures a == 0.0 ==> v == 0.0
  {
    if a > 0.0 && b > 0.0 {
      PositiveProduct(a, b);
    } else if a < 0.0 && b < 0.0 {
      PositiveProduct(-a, -b);
      NegatedProduct(a, -b);
      NegatedProduct(b, a);
    }
  }

  lemma {:induction false} SquareSign(d: real, v: real)
    requires d * d == v
    ensures v >= 0.0
    ensures v == 0.0 <==> d == 0.0
  {
    ProductSign(d, d, v);
  }

  lemma {:induction false} Spread(k: real, a: real, b: real)
    ensures k * (a - b) == k * a - k * b
  {
  }

  lemma {:induction false} PositiveFactor(k: real, a: real, b: real)
    requires k > 0.0
    ensures k * a >= k * b <==> a >= b
  {
    Spread(k, a, b);
    if a > b { PositiveProduct(k, a - b); }
    if b > a {
      PositiveProduct(k, b - a);
      Spread(k, b, a);
    }
  }

  lemma {:induction false} AbsOfProduct(k: real, a: real)
    ensures Abs(k * a) == Abs(k) * Abs(a)
  {
    NegatedProduct(k, a);
    NegatedProduct(k, -a);
    NegatedProduct(a, k);
    assert k * (-a) == (-a) * k && a * k == k * a;
    if k > 0.0 && a > 0.0 { PositiveProduct(k, a); }
    if k < 0.0 && a > 0.0 { PositiveProduct(-k, a); }
    if k > 0.0 && a < 0.0 { PositiveProduct(k, -a); }
    if k < 0.0 && a < 0.0 { PositiveProduct(-k, -a); }
  }

  /** Dividing out a positive deviation: the z-score test as a comparison of products. */
  lemma {:induction false} ScoreAsProduct(dev: real, std: real, threshold: real)
    requires std > 0.0
    ensures Abs(dev / std) >= threshold <==> Abs(dev) >= std * threshold
  {
    var z := dev / std;
    assert std * z == dev;
    AbsOfProduct(std, z);
    PositiveFactor(std, Abs(z), threshold);
  }

  // ---------- detection ----------

  /** What `math.Sqrt` returns on a non-negative argument. */
  ghost predicate IsRoot(s: real, v: real) {
    s >= 0.0 && s * s == v
  }

  ghost predicate RootFunction(sqrt: real -> real) {
    forall v :: v >= 0.0 ==> IsRoot(sqrt(v), v)
  }

  function Abs(x: real): real {
    if x < 0.0 then -x else x
  }

  function Values(pts: seq<Point>): (xs: seq<real>)
    ensures |xs| == |pts|
  {
    seq(|pts|, i requires 0 <= i < |pts| => pts[i].value)
  }

  /** What `sort.Slice` leaves: the same points by ascending time, ties in any order. */
  ghost predicate TimeOrdered(pts: seq<Point>, points: seq<Point>) {
    && multiset(pts) == multiset(points)
    && forall i, j :: 0 <= i < j < |pts| ==> pts[i].at <= pts[j].at
  }

  function ByTime(): (Point, Point) -> bool {
    (a: Point, b: Point) => a.at < b.at
  }

  /** `sort.Slice` by time; its callers know no more than the contract says of ties. */
  method SortByTime(points: seq<Point>) returns (pts: seq<Point>)
    ensures TimeOrdered(pts, points)
  {
    pts := Sort(ByTime(), points);
    assert WeakOrder(ByTime());
    SortSorted(ByTime(), points);
    SortPermutes(ByTime(), points);
    forall i, j | 0 <= i < j < |pts| ensures pts[i].at <= pts[j].at {
      assert !ByTime()(pts[j], pts[i]);
    }
  }

  /** A value at least `threshold` standard deviations away from a baseline that is not flat. */
  ghost predicate Deviates(s: Baseline, x: real, threshold: real, std: real) {
    IsRoot(std, s.variance) && std > 0.0 && Abs(x - s.mean) >= std * threshold
  }

  /** The verdict on values in time order: the latest against the baseline before it. */
  ghost predicate Flagged(xs: seq<real>, minSamples: int, zThreshold: real, std: real) {
    |xs| >= minSamples + 1 && |xs| >= 2 && Deviates(Ewma(xs, |xs| - 1), xs[|xs| - 1], zThreshold, std)
  }

  /** The loop of `detectOne` over every point but the latest. */
  method Accumulate(pts: seq<Point>) returns (mean: real, variance: real)
    requires pts != []
    ensures Baseline(mean, variance) == Ewma(Values(pts), if |pts| == 1 then 1 else |pts| - 1)
  {
    mean, variance := pts[0].value, 0.0;
    var i := 1;
    while i < |pts| - 1
      invariant 1 <= i && (i <= |pts| - 1 || |pts| == i == 1)
      invariant Baseline(mean, variance) == Ewma(Values(pts), i)
    {
      var x := pts[i].value;
      ghost var before := Baseline(mean, variance);
      var diff := x - mean;
      mean := mean + ALPHA * diff;
      variance := (1.0 - ALPHA) * (variance + ALPHA * (diff * diff));
      assert Values(pts)[i] == x && Baseline(mean, variance) == Step(before, x);
      i := i + 1;
    }
  }

  /** A finding reports the latest value against the weighted mean and deviation of those before it. */
  ghost predicate Explains(f: Finding, key: string, xs: seq<real>, zThreshold: real) {
    && |xs| >= 2
    && f.key == key && f.latest == xs[|xs| - 1] && f.samples == |xs| - 1
    && f.mean == WeightedMean(xs[..|xs| - 1])
    && f.stdDev > 0.0 && IsRoot(f.stdDev, WeightedSquares(xs[..|xs| - 1], f.mean))
    && f.z == (f.latest - f.mean) / f.stdDev && Abs(f.z) >= zThreshold
  }

  lemma {:induction false} FlatNeverFlagged(xs: seq<real>, minSamples: int, zThreshold: real)
    requires |xs| >= 2 ==> Ewma(xs, |xs| - 1).variance == 0.0
    ensures !exists std :: Flagged(xs, minSamples, zThreshold, std)
  {
    forall s ensures !Flagged(xs, minSamples, zThreshold, s) {
      if |xs| >= 2 && IsRoot(s, Ewma(xs, |xs| - 1).variance) { SquareSign(s, Ewma(xs, |xs| - 1).variance); }
    }
  }

  lemma {:induction false} OneDeviation(xs: seq<real>, minSamples: int, zThreshold: real, std: real)
    requires |xs| >= 2 && IsRoot(std, Ewma(xs, |xs| - 1).variance) && std > 0.0 && |xs| >= minSamples + 1
    ensures (exists s :: Flagged(xs, minSamples, zThreshold, s))
       <==> Abs(xs[|xs| - 1] - Ewma(xs, |xs| - 1).mean) >= std * zThreshold
  {
    forall s | Flagged(xs, minSamples, zThreshold, s) ensures s == std { RootUnique(s, std); }
    if Abs(xs[|xs| - 1] - Ewma(xs, |xs| - 1).mean) >= std * zThreshold {
      assert Flagged(xs, minSamples, zThreshold, std);
    }
  }

  lemma {:induction false} SameLength(pts: seq<Point>, points: seq<Point>)
    requires TimeOrdered(pts, points)
    ensures |pts| == |points|
  {
    SameMembers(pts, points);
  }

  /** The verdict on a series in some order by time: flagged or not, and why. */
  ghost predicate Judges(finding: Option<Finding>, key: string, points: seq<Point>, minSamples: int, zThreshold: real) {
    exists pts :: TimeOrdered(pts, points) && JudgesInOrder(finding, key, Values(pts), minSamples, zThreshold)
  }

  ghost predicate JudgesInOrder(finding: Option<Finding>, key: string, xs: seq<real>, minSamples: int, zThreshold: real) {
    && (finding.Some? <==> exists std :: Flagged(xs, minSamples, zThreshold, std))
    && (finding.Some? ==> Explains(finding.value, key, xs, zThreshold))
  }

  /** `detectOne` */
  method DetectOne(key: string, points: seq<Point>, minSamples: int, zThreshold: real, sqrt: real -> real)
    returns (finding: Option<Finding>)
    requires RootFunction(sqrt)
    requires points != [] || minSamples >= 0
    ensures Judges(finding, key, points, minSamples, zThreshold)
  {
    var pts := SortByTime(points);
    SameLength(pts, points);
    finding := Judge(key, pts, minSamples, zThreshold, sqrt);
  }

  /** `detectOne` on the sorted points. */
  method Judge(key: string, pts: seq<Point>, minSamples: int, zThreshold: real, sqrt: real -> real)
    returns (finding: Option<Finding>)
    requires RootFunction(sqrt)
    requires pts != [] || minSamples >= 0
    ensures JudgesInOrder(finding, key, Values(pts), minSamples, zThreshold)
  {
    hide Ewma, WeightedMean, WeightedSquares;
    ghost var xs := Values(pts);
    if |pts| < minSamples + 1 { return None; }
    var mean, variance := Accumulate(pts);
    VarianceZeroIffFlat(xs, if |pts| == 1 then 1 else |pts| - 1);
    var std := sqrt(variance);
    assert IsRoot(std, variance);
    SquareSign(std, variance);
    if std <= 0.0 {
      FlatNeverFlagged(xs, minSamples, zThreshold);
      return None;
    }
    var latest := pts[|pts| - 1].value;
    OneDeviation(xs, minSamples, zThreshold, std);
    var z := (latest - mean) / std;
    ScoreAsProduct(latest - mean, std, zThreshold);
    if Abs(z) < zThreshold { return None; }
    BaselineIsPrefix(xs);
    EwmaIsWeighted(xs[..|xs| - 1]);
    return Some(Finding(key, latest, mean, std, z, |pts| - 1));
  }

  lemma {:induction false} EwmaOfPrefix(xs: seq<real>, m: nat, n: nat)
    requires 0 < n <= m <= |xs|
    ensures Ewma(xs[..m], n) == Ewma(xs, n)
  {
    if n > 1 { EwmaOfPrefix(xs, m, n - 1); }
  }

  lemma {:induction false} BaselineIsPrefix(xs: seq<real>)
    requires |xs| >= 2
    ensures Ewma(xs[..|xs| - 1], |xs| - 1) == Ewma(xs, |xs| - 1)
  {
    EwmaOfPrefix(xs, |xs| - 1, |xs| - 1);
  }

  lemma {:induction false} RootUnique(a: real, b: real)
    requires a >= 0.0 && b >= 0.0 && a * a == b * b
    ensures a == b
  {
    assert (a - b) * (a + b) == a * a - b * b;
    ProductZero(a - b, a + b);
  }

  lemma {:induction false} ProductZero(x: real, y: real)
    requires x * y == 0.0
    ensures x == 0.0 || y == 0.0
  {
  }

  // ---------- the verdict is unaffected by the choice of units ----------

  /** A change of units: what it does to a value, to a baseline and to a deviation. */
  datatype Units = Units(value: real -> real, baseline: Baseline -> Baseline, deviation: real -> real)

  ghost predicate Consistent(u: Units) {
    && (forall x :: u.baseline(Baseline(x, 0.0)) == Baseline(u.value(x), 0.0))
    && (forall s, x :: Step(u.baseline(s), u.value(x)) == u.baseline(Step(s, x)))
    && (forall s, x, threshold, std :: Deviates(s, x, threshold, std) ==>
          Deviates(u.baseline(s), u.value(x), threshold, u.deviation(std)))
  }

  function Converted(xs: seq<real>, u: Units): (ys: seq<real>)
    ensures |ys| == |xs|
  {
    seq(|xs|, i requires 0 <= i < |xs| => u.value(xs[i]))
  }

  lemma {:induction false} EwmaConverts(xs: seq<real>, n: nat, u: Units)
    requires 0 < n <= |xs| && Consistent(u)
    ensures Ewma(Converted(xs, u), n) == u.baseline(Ewma(xs, n))
  {
    if n > 1 { EwmaConverts(xs, n - 1, u); }
  }

  lemma {:induction false} FlaggedConverts(xs: seq<real>, minSamples: int, zThreshold: real, std: real, u: Units)
    requires Consistent(u) && Flagged(xs, minSamples, zThreshold, std)
    ensures Flagged(Converted(xs, u), minSamples, zThreshold, u.deviation(std))
  {
    EwmaConverts(xs, |xs| - 1, u);
  }

  /** Scaling by `scale` and shifting by `shift`. */
  function Affine(scale: real, shift: real): Units {
    Units((x: real) => scale * x + shift,
          (s: Baseline) => Baseline(scale * s.mean + shift, scale * scale * s.variance),
          (std: real) => Abs(scale) * std)
  }

  lemma {:induction false} SquareOfProduct(k: real, d: real)
    ensures (k * d) * (k * d) == (k * k) * (d * d)
  {
    var q := k * d;
    calc {
      q * q;
      k * (d * q);
      k * (k * (d * d));
      (k * k) * (d * d);
    }
  }

  lemma {:induction false} Combine(q: real, v: real, w: real)
    ensures q * ((1.0 - ALPHA) * (v + ALPHA * w)) == (1.0 - ALPHA) * (q * v + ALPHA * (q * w))
  {
    Spread(q, v, -(ALPHA * w));
    assert q * (ALPHA * w) == ALPHA * (q * w);
  }

  lemma {:induction false} RescaleDistance(scale: real, shift: real, x: real, mean: real)
    ensures (scale * x + shift) - (scale * mean + shift) == scale * (x - mean)
  {
    Spread(scale, x, mean);
  }

  lemma {:induction false} StepParts(s: Baseline, x: real, diff: real)
    requires diff == x - s.mean
    ensures Step(s, x) == Baseline(s.mean + ALPHA * diff, (1.0 - ALPHA) * (s.variance + ALPHA * (diff * diff)))
  {
  }

  lemma {:induction false} RescaleMean(scale: real, shift: real, mean: real, d: real)
    ensures (scale * mean + shift) + ALPHA * (scale * d) == scale * (mean + ALPHA * d) + shift
  {
    Spread(scale, mean, -(ALPHA * d));
    assert scale * (ALPHA * d) == ALPHA * (scale * d);
  }

  lemma {:induction false} RescaleVariance(scale: real, variance: real, d: real, diff: real)
    requires diff == scale * d
    ensures (1.0 - ALPHA) * (scale * scale * variance + ALPHA * (diff * diff))
         == scale * scale * ((1.0 - ALPHA) * (variance + ALPHA * (d * d)))
  {
    SquareOfProduct(scale, d);
    Combine(scale * scale, variance, d * d);
  }

  lemma {:induction false} RescaleStepBy(s: Baseline, t: Baseline, x: real, y: real, scale: real, shift: real, d: real)
    requires t.mean == scale * s.mean + shift && t.variance == scale * scale * s.variance
    requires d == x - s.mean && y - t.mean == scale * d
    ensures Step(t, y).mean == scale * Step(s, x).mean + shift
    ensures Step(t, y).variance == scale * scale * Step(s, x).variance
  {
    hide Step;
    StepParts(s, x, d);
    StepParts(t, y, scale * d);
    RescaleMean(scale, shift, s.mean, d);
    RescaleVariance(scale, s.variance, d, scale * d);
  }

  lemma {:induction false} RescaleStep(s: Baseline, x: real, scale: real, shift: real)
    ensures Step(Baseline(scale * s.mean + shift, scale * scale * s.variance), scale * x + shift)
         == Baseline(scale * Step(s, x).mean + shift, scale * scale * Step(s, x).variance)
  {
    hide Step;
    RescaleDistance(scale, shift, x, s.mean);
    RescaleStepBy(s, Baseline(scale * s.mean + shift, scale * scale * s.variance), x, scale * x + shift, scale, shift, x - s.mean);
  }

  lemma {:induction false} RootRescales(std: real, variance: real, scale: real)
    requires IsRoot(std, variance) && std > 0.0 && scale != 0.0
    ensures IsRoot(Abs(scale) * std, scale * scale * variance) && Abs(scale) * std > 0.0
  {
    PositiveProduct(Abs(scale), std);
    SquareOfProduct(Abs(scale), std);
    NegatedProduct(scale, scale);
    NegatedProduct(scale, -scale);
    assert scale * (-scale) == (-scale) * scale;
  }

  lemma {:induction false} DistanceRescales(x: real, mean: real, std: real, threshold: real, scale: real, shift: real)
    requires scale != 0.0 && Abs(x - mean) >= std * threshold
    ensures Abs((scale * x + shift) - (scale * mean + shift)) >= (Abs(scale) * std) * threshold
  {
    var dev, bound := x - mean, std * threshold;
    Spread(scale, x, mean);
    AbsOfProduct(scale, dev);
    PositiveFactor(Abs(scale), Abs(dev), bound);
    Regroup(Abs(scale), std, threshold);
  }

  lemma {:induction false} Regroup(a: real, b: real, c: real)
    ensures (a * b) * c == a * (b * c)
  {
  }

  lemma {:induction false} DeviationRescales(s: Baseline, x: real, threshold: real, std: real, scale: real, shift: real)
    requires scale != 0.0 && Deviates(s, x, threshold, std)
    ensures Deviates(Baseline(scale * s.mean + shift, scale * scale * s.variance), scale * x + shift, threshold, Abs(scale) * std)
  {
    RootRescales(std, s.variance, scale);
    DistanceRescales(x, s.mean, std, threshold, scale, shift);
  }

  lemma {:induction false} AffineSteps(scale: real, shift: real, s: Baseline, x: real)
    ensures var u := Affine(scale, shift); Step(u.baseline(s), u.value(x)) == u.baseline(Step(s, x))
  {
    RescaleStep(s, x, scale, shift);
  }

  lemma {:induction false} AffineValues(scale: real, shift: real, s: Baseline, x: real, std: real)
    ensures var u := Affine(scale, shift);
            && u.baseline(s) == Baseline(scale * s.mean + shift, scale * scale * s.variance)
            && u.value(x) == scale * x + shift
            && u.deviation(std) == Abs(scale) * std
  {
  }

  lemma {:induction false} AffineDeviates(scale: real, shift: real, s: Baseline, x: real, threshold: real, std: real)
    requires scale != 0.0 && Deviates(s, x, threshold, std)
    ensures var u := Affine(scale, shift); Deviates(u.baseline(s), u.value(x), threshold, u.deviation(std))
  {
    var u := Affine(scale, shift);
    var moved, value, deviation := Baseline(scale * s.mean + shift, scale * scale * s.variance), scale * x + shift, Abs(scale) * std;
    AffineValues(scale, shift, s, x, std);
    assert Deviates(moved, value, threshold, deviation) by { DeviationRescales(s, x, threshold, std, scale, shift); }
  }

  lemma {:induction false} AffineConsistent(scale: real, shift: real)
    requires scale != 0.0
    ensures Consistent(Affine(scale, shift))
  {
    var u := Affine(scale, shift);
    assert forall x :: u.baseline(Baseline(x, 0.0)) == Baseline(u.value(x), 0.0);
    forall s, x ensures Step(u.baseline(s), u.value(x)) == u.baseline(Step(s, x)) { AffineSteps(scale, shift, s, x); }
    forall s, x, threshold, std | Deviates(s, x, threshold, std)
      ensures Deviates(u.baseline(s), u.value(x), threshold, u.deviation(std))
    {
      AffineDeviates(scale, shift, s, x, threshold, std);
    }
  }

  lemma {:induction false} UndoScale(x: real, scale: real, shift: real)
    requires scale != 0.0
    ensures (1.0 / scale) * (scale * x + shift) + -(shift / scale) == x
  {
    var k := 1.0 / scale;
    assert k * scale == 1.0;
    assert k * (scale * x + shift) == (k * scale) * x + k * shift;
    assert k * shift == shift / scale;
  }

  lemma {:induction false} ConvertBack(xs: seq<real>, scale: real, shift: real)
    requires scale != 0.0
    ensures Converted(Converted(xs, Affine(scale, shift)), Affine(1.0 / scale, -(shift / scale))) == xs
  {
    var back := Converted(Converted(xs, Affine(scale, shift)), Affine(1.0 / scale, -(shift / scale)));
    forall i | 0 <= i < |xs| ensures back[i] == xs[i] { UndoScale(xs[i], scale, shift); }
  }

  /** Whether values in time order are flagged does not change when they are scaled and shifted. */
  lemma {:induction false} FlagInvariant(xs: seq<real>, minSamples: int, zThreshold: real, scale: real, shift: real)
    requires scale != 0.0
    ensures (exists std :: Flagged(xs, minSamples, zThreshold, std))
       <==> (exists std :: Flagged(Converted(xs, Affine(scale, shift)), minSamples, zThreshold, std))
  {
    var u := Affine(scale, shift);
    var ys := Converted(xs, u);
    if std :| Flagged(xs, minSamples, zThreshold, std) {
      AffineConsistent(scale, shift);
      FlaggedConverts(xs, minSamples, zThreshold, std, u);
    }
    if std :| Flagged(ys, minSamples, zThreshold, std) {
      var inverse := Affine(1.0 / scale, -(shift / scale));
      assert 1.0 / scale != 0.0;
      AffineConsistent(1.0 / scale, -(shift / scale));
      FlaggedConverts(ys, minSamples, zThreshold, std, inverse);
      ConvertBack(xs, scale, shift);
    }
  }

  // ---------- the verdict on points ----------

  function Rescale(p: Point, scale: real, shift: real): Point {
    p.(value := scale * p.value + shift)
  }

  /** The same times with scaled and shifted values. */
  function Rescaled(points: seq<Point>, scale: real, shift: real): (ps: seq<Point>)
    ensures |ps| == |points| && forall i :: 0 <= i < |ps| ==> ps[i] == Rescale(points[i], scale, shift)
  {
    seq(|points|, i requires 0 <= i < |points| => Rescale(points[i], scale, shift))
  }

  lemma {:induction false} RescaledWithout(points: seq<Point>, i: nat, scale: real, shift: real)
    requires i < |points|
    ensures var rest := points[..i] + points[i + 1..];
            && multiset(points) == multiset(rest) + multiset{points[i]}
            && multiset(Rescaled(points, scale, shift)) == multiset(Rescaled(rest, scale, shift)) + multiset{Rescale(points[i], scale, shift)}
  {
    hide Rescale, Rescaled;
    var ps, rest := Rescaled(points, scale, shift), points[..i] + points[i + 1..];
    assert points == points[..i] + [points[i]] + points[i + 1..];
    assert ps == ps[..i] + [ps[i]] + ps[i + 1..];
    assert Rescaled(rest, scale, shift) == ps[..i] + ps[i + 1..];
  }

  lemma {:induction false} RescaledPermutes(a: seq<Point>, b: seq<Point>, scale: real, shift: real)
    requires multiset(a) == multiset(b)
    ensures multiset(Rescaled(a, scale, shift)) == multiset(Rescaled(b, scale, shift))
    decreases |a|, 1
  {
    hide Rescale, Rescaled;
    SameMembers(a, b);
    if a == [] {
      assert Rescaled(a, scale, shift) == [] == Rescaled(b, scale, shift);
    } else {
      assert a[0] in b;
      var i :| 0 <= i < |b| && b[i] == a[0];
      RescaledSame(a, 0, b, i, scale, shift);
    }
  }

  lemma {:induction false} RescaledSame(a: seq<Point>, i: nat, b: seq<Point>, j: nat, scale: real, shift: real)
    requires i < |a| && j < |b| && a[i] == b[j] && multiset(a) == multiset(b)
    ensures multiset(Rescaled(a, scale, shift)) == multiset(Rescaled(b, scale, shift))
    decreases |a|, 0
  {
    hide Rescale, Rescaled;
    var left, right := a[..i] + a[i + 1..], b[..j] + b[j + 1..];
    RescaledWithout(a, i, scale, shift);
    RescaledWithout(b, j, scale, shift);
    assert multiset(left) == multiset(a) - multiset{a[i]};
    assert multiset(right) == multiset(b) - multiset{a[i]};
    RescaledPermutes(left, right, scale, shift);
  }

  lemma {:induction false} OrderRescales(pts: seq<Point>, points: seq<Point>, scale: real, shift: real)
    requires TimeOrdered(pts, points)
    ensures TimeOrdered(Rescaled(pts, scale, shift), Rescaled(points, scale, shift))
  {
    RescaledPermutes(pts, points, scale, shift);
  }

  lemma {:induction false} RescaleBack(points: seq<Point>, scale: real, shift: real)
    requires scale != 0.0
    ensures Rescaled(Rescaled(points, scale, shift), 1.0 / scale, -(shift / scale)) == points
    ensures Rescaled(Rescaled(points, 1.0 / scale, -(shift / scale)), scale, shift) == points
  {
    var there := Rescaled(Rescaled(points, scale, shift), 1.0 / scale, -(shift / scale));
    var back := Rescaled(Rescaled(points, 1.0 / scale, -(shift / scale)), scale, shift);
    forall i | 0 <= i < |points| ensures there[i] == points[i] && back[i] == points[i] {
      UndoScale(points[i].value, scale, shift);
      RedoScale(points[i].value, scale, shift);
    }
  }

  lemma {:induction false} RedoScale(x: real, scale: real, shift: real)
    requires scale != 0.0
    ensures scale * ((1.0 / scale) * x + -(shift / scale)) + shift == x
  {
    var k := 1.0 / scale;
    assert scale * k == 1.0 && scale * (shift / scale) == shift;
    Spread(scale, k * x, shift / scale);
    Regroup(scale, k, x);
  }

  /** The verdict of `detectOne` when its sort comes to this order. */
  ghost predicate FlaggedIn(pts: seq<Point>, minSamples: int, zThreshold: real) {
    exists std :: Flagged(Values(pts), minSamples, zThreshold, std)
  }

  lemma {:induction false} RescaledValues(pts: seq<Point>, scale: real, shift: real)
    ensures Values(Rescaled(pts, scale, shift)) == Converted(Values(pts), Affine(scale, shift))
  {
    var ys, zs := Values(Rescaled(pts, scale, shift)), Converted(Values(pts), Affine(scale, shift));
    forall i | 0 <= i < |pts| ensures ys[i] == zs[i] {
      assert Values(pts)[i] == pts[i].value;
    }
  }

  lemma {:induction false} SameFlag(pts: seq<Point>, minSamples: int, zThreshold: real, scale: real, shift: real)
    requires scale != 0.0
    ensures FlaggedIn(Rescaled(pts, scale, shift), minSamples, zThreshold) == FlaggedIn(pts, minSamples, zThreshold)
  {
    hide Flagged;
    FlagInvariant(Values(pts), minSamples, zThreshold, scale, shift);
    RescaledValues(pts, scale, shift);
  }

  /** Some order of the points by time leads to this verdict. */
  ghost predicate CanJudge(points: seq<Point>, minSamples: int, zThreshold: real, flagged: bool) {
    exists pts :: TimeOrdered(pts, points) && FlaggedIn(pts, minSamples, zThreshold) == flagged
  }

  lemma {:induction false} CanJudgeRescaled(points: seq<Point>, minSamples: int, zThreshold: real, scale: real, shift: real, flagged: bool)
    requires scale != 0.0 && CanJudge(points, minSamples, zThreshold, flagged)
    ensures CanJudge(Rescaled(points, scale, shift), minSamples, zThreshold, flagged)
  {
    hide TimeOrdered, FlaggedIn;
    var pts :| TimeOrdered(pts, points) && FlaggedIn(pts, minSamples, zThreshold) == flagged;
    OrderRescales(pts, points, scale, shift);
    SameFlag(pts, minSamples, zThreshold, scale, shift);
  }

  /**
   Scaling and shifting the values of a series changes no verdict: points in the same order by time are
   judged alike, and the verdicts that ties allow are the same.
   */
  lemma {:induction false} VerdictInvariant(points: seq<Point>, minSamples: int, zThreshold: real, scale: real, shift: real, flagged: bool)
    requires scale != 0.0
    ensures forall pts :: TimeOrdered(pts, points) ==>
              && TimeOrdered(Rescaled(pts, scale, shift), Rescaled(points, scale, shift))
              && FlaggedIn(Rescaled(pts, scale, shift), minSamples, zThreshold) == FlaggedIn(pts, minSamples, zThreshold)
    ensures CanJudge(Rescaled(points, scale, shift), minSamples, zThreshold, flagged)
       <==> CanJudge(points, minSamples, zThreshold, flagged)
  {
    hide TimeOrdered, FlaggedIn, CanJudge;
    forall pts | TimeOrdered(pts, points)
      ensures TimeOrdered(Rescaled(pts, scale, shift), Rescaled(points, scale, shift))
      ensures FlaggedIn(Rescaled(pts, scale, shift), minSamples, zThreshold) == FlaggedIn(pts, minSamples, zThreshold)
    {
      OrderRescales(pts, points, scale, shift);
      SameFlag(pts, minSamples, zThreshold, scale, shift);
    }
    if CanJudge(points, minSamples, zThreshold, flagged) {
      CanJudgeRescaled(points, minSamples, zThreshold, scale, shift, flagged);
    }
    if CanJudge(Rescaled(points, scale, shift), minSamples, zThreshold, flagged) {
      assert 1.0 / scale != 0.0;
      CanJudgeRescaled(Rescaled(points, scale, shift), minSamples, zThreshold, 1.0 / scale, -(shift / scale), flagged);
      RescaleBack(points, scale, shift);
    }
  }
}
