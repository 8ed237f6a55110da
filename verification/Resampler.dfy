/** Averaging samples over equal intervals of their first coordinate, over the reals. */
module Resampler {

  datatype Error = NoSamples | MissingY

  datatype Result = Failed(e: Error) | Resampled(x: seq<real>, y: seq<real>)

  const NB_INTERVAL := 2000

  /** Equal intervals between the least and the greatest x. */
  datatype Grid = Grid(lo: real, hi: real, bins: nat)
  {
    predicate Valid() {
      lo <= hi && bins > 0
    }

    function Width(): real
      requires Valid()
    {
      (hi - lo) / bins as real
    }

    function Bin(v: real): int
      requires Valid()
    {
      if v < lo then 0 else if v < hi then ((v - lo) / Width()).Floor else bins - 1
    }
  }

  // ---- bins

  lemma {:induction false} Quotient(a: real, b: real, w: real)
    requires w > 0.0
    ensures a <= b ==> a / w <= b / w
    ensures a < b ==> a / w < b / w
  {
  }

  lemma {:induction false} WholeWidth(g: Grid)
    requires g.Valid() && g.lo < g.hi
    ensures g.Width() > 0.0 && (g.hi - g.lo) / g.Width() == g.bins as real
  {
  }

  /** Every sample has a bin, also when all x are equal. */
  lemma {:induction false} BinInRange(g: Grid, v: real)
    requires g.Valid()
    ensures 0 <= g.Bin(v) < g.bins
  {
  }

  /** Later bins hold greater x. */
  lemma {:induction false} BinMonotone(g: Grid, v: real, u: real)
    requires g.Valid() && v <= u
    ensures g.Bin(v) <= g.Bin(u)
  {
    BinInRange(g, v);
    BinInRange(g, u);
    if g.lo <= v && u < g.hi {
      WholeWidth(g);
      Quotient(v - g.lo, u - g.lo, g.Width());
    }
  }

  /** A bin is an interval of the width of one bin, and the greatest x is in the last one. */
  lemma {:induction false} BinInterval(g: Grid, v: real)
    requires g.Valid()
    ensures var k := g.Bin(v) as real;
      g.lo <= v < g.hi ==> g.lo + k * g.Width() <= v < g.lo + (k + 1.0) * g.Width()
    ensures v == g.hi ==> g.Bin(v) == g.bins - 1
  {
    if g.lo <= v < g.hi {
      WholeWidth(g);
      FloorTimes(v - g.lo, g.Width());
    }
  }

  lemma {:induction false} FloorTimes(a: real, w: real)
    requires w > 0.0
    ensures var k := (a / w).Floor as real;
      k * w <= a < (k + 1.0) * w
  {
    var q := a / w;
    Scaled(q, w, a, q.Floor as real, q.Floor as real + 1.0);
  }

  lemma {:induction false} Scaled(q: real, w: real, a: real, low: real, high: real)
    requires w > 0.0 && q == a / w && low <= q < high
    ensures low * w <= a < high * w
  {
    assert q * w == a;
    TimesMonotone(low, q, w);
    TimesMonotone(q, high, w);
  }

  lemma {:induction false} TimesMonotone(a: real, b: real, w: real)
    requires w > 0.0
    ensures a <= b ==> a * w <= b * w
    ensures a < b ==> a * w < b * w
  {
    assert b * w - a * w == (b - a) * w;
    if a < b {
      PositiveProduct(b - a, w);
    }
  }

  lemma {:induction false} PositiveProduct(a: real, b: real)
    requires a > 0.0 && b > 0.0
    ensures a * b > 0.0
  {
  }

  // ---- sums over bins; b[i] is the bin of sample i

  function Sum(v: seq<real>): real {
    if v == [] then 0.0 else Sum(v[..|v| - 1]) + v[|v| - 1]
  }

  /** How many samples fall into bin k. */
  function Count(b: seq<int>, k: int): nat {
    if b == [] then 0 else Count(b[..|b| - 1], k) + if b[|b| - 1] == k then 1 else 0
  }

  /** The total of v over the samples in bin k. */
  function Total(b: seq<int>, v: seq<real>, k: int): real
    requires |b| == |v|
  {
    if b == [] then 0.0
    else
      var n := |b| - 1;
      Total(b[..n], v[..n], k) + if b[n] == k then v[n] else 0.0
  }

  function CountBelow(b: seq<int>, m: nat): nat {
    if m == 0 then 0 else CountBelow(b, m - 1) + Count(b, m - 1)
  }

  function TotalBelow(b: seq<int>, v: seq<real>, m: nat): real
    requires |b| == |v|
  {
    if m == 0 then 0.0 else TotalBelow(b, v, m - 1) + Total(b, v, m - 1)
  }

  lemma {:induction false} BelowStep(b: seq<int>, v: seq<real>, m: nat)
    requires |b| == |v| > 0
    ensures var n := |b| - 1;
      && CountBelow(b, m) == CountBelow(b[..n], m) + (if 0 <= b[n] < m then 1 else 0)
      && TotalBelow(b, v, m) == TotalBelow(b[..n], v[..n], m) + (if 0 <= b[n] < m then v[n] else 0.0)
    decreases m
  {
    if m == 0 {
    } else {
      BelowStep(b, v, m - 1);
    }
  }

  lemma {:induction false} NothingBelow(m: nat)
    ensures CountBelow([], m) == 0 && TotalBelow([], [], m) == 0.0
    decreases m
  {
    if m == 0 {
    } else {
      NothingBelow(m - 1);
    }
  }

  predicate Within(b: seq<int>, m: nat) {
    forall i :: 0 <= i < |b| ==> 0 <= b[i] < m
  }

  /** No sample is lost or counted twice. */
  lemma {:induction false} BinsPartition(b: seq<int>, v: seq<real>, m: nat)
    requires |b| == |v| && Within(b, m)
    ensures CountBelow(b, m) == |b| && TotalBelow(b, v, m) == Sum(v)
    decreases |b|
  {
    if b == [] {
      NothingBelow(m);
    } else {
      var n := |b| - 1;
      BinsPartition(b[..n], v[..n], m);
      BelowStep(b, v, m);
    }
  }

  // ---- occupied bins and their means

  /** The bins below m that hold a sample, in order. */
  function Occupied(b: seq<int>, m: nat): seq<nat> {
    if m == 0 then [] else Occupied(b, m - 1) + (if Count(b, m - 1) > 0 then [m - 1] else [])
  }

  function Mean(b: seq<int>, v: seq<real>, k: int): real
    requires |b| == |v| && Count(b, k) > 0
  {
    Total(b, v, k) / Count(b, k) as real
  }

  function Means(b: seq<int>, v: seq<real>, m: nat): (r: seq<real>)
    requires |b| == |v|
    ensures |r| == |Occupied(b, m)|
  {
    if m == 0 then [] else Means(b, v, m - 1) + (if Count(b, m - 1) > 0 then [Mean(b, v, m - 1)] else [])
  }

  function Counts(b: seq<int>, m: nat): (r: seq<nat>)
    ensures |r| == |Occupied(b, m)|
  {
    if m == 0 then [] else Counts(b, m - 1) + (if Count(b, m - 1) > 0 then [Count(b, m - 1)] else [])
  }

  function SumNat(c: seq<nat>): nat {
    if c == [] then 0 else SumNat(c[..|c| - 1]) + c[|c| - 1]
  }

  /** The product, as a repeated sum. */
  function Times(mean: real, count: nat): real {
    if count == 0 then 0.0 else Times(mean, count - 1) + mean
  }

  lemma {:induction false} TimesIsProduct(mean: real, count: nat)
    ensures Times(mean, count) == mean * count as real
    decreases count
  {
    if count == 0 {
    } else {
      TimesIsProduct(mean, count - 1);
      var c := (count - 1) as real;
      assert count as real == c + 1.0 && mean * (c + 1.0) == mean * c + mean;
    }
  }

  function Weighted(means: seq<real>, counts: seq<nat>): real
    requires |means| == |counts|
  {
    if means == [] then 0.0
    else
      var n := |means| - 1;
      Weighted(means[..n], counts[..n]) + Times(means[n], counts[n])
  }

  lemma {:induction false} EmptyTotal(b: seq<int>, v: seq<real>, k: int)
    requires |b| == |v| && Count(b, k) == 0
    ensures Total(b, v, k) == 0.0
    decreases |b|
  {
    if b == [] {
    } else {
      EmptyTotal(b[..|b| - 1], v[..|b| - 1], k);
    }
  }

  lemma {:induction false} MeanTimes(total: real, count: nat)
    requires count > 0
    ensures Times(total / count as real, count) == total
  {
    TimesIsProduct(total / count as real, count);
  }

  lemma {:induction false} WeightedSnoc(means: seq<real>, counts: seq<nat>, mean: real, count: nat)
    requires |means| == |counts|
    ensures Weighted(means + [mean], counts + [count]) == Weighted(means, counts) + Times(mean, count)
    ensures SumNat(counts + [count]) == SumNat(counts) + count
  {
  }

  /** The counts and the count-weighted means of the occupied bins below m add up to this. */
  predicate AddUp(b: seq<int>, v: seq<real>, m: nat, count: nat, total: real)
    requires |b| == |v|
  {
    SumNat(Counts(b, m)) == count && Weighted(Means(b, v, m), Counts(b, m)) == total
  }

  lemma {:induction false} WeightedBelow(b: seq<int>, v: seq<real>, m: nat)
    requires |b| == |v|
    ensures AddUp(b, v, m, CountBelow(b, m), TotalBelow(b, v, m))
    decreases m
  {
    if m == 0 {
    } else {
      WeightedBelow(b, v, m - 1);
      AddUpNext(b, v, m, CountBelow(b, m - 1), TotalBelow(b, v, m - 1));
    }
  }

  lemma {:induction false} AddUpNext(b: seq<int>, v: seq<real>, m: nat, count: nat, total: real)
    requires |b| == |v| && m > 0 && AddUp(b, v, m - 1, count, total)
    ensures AddUp(b, v, m, count + Count(b, m - 1), total + Total(b, v, m - 1))
  {
    var k := m - 1;
    if Count(b, k) == 0 {
      EmptyTotal(b, v, k);
      assert Means(b, v, m) == Means(b, v, k) && Counts(b, m) == Counts(b, k);
    } else {
      var means, counts, mean, n := Means(b, v, k), Counts(b, k), Mean(b, v, k), Count(b, k);
      MeanTimes(Total(b, v, k), n);
      WeightedSnoc(means, counts, mean, n);
      assert Means(b, v, m) == means + [mean] && Counts(b, m) == counts + [n];
    }
  }

  /** Counts add up to the samples, and count-weighted means to the total. */
  lemma {:induction false} MeansConserve(b: seq<int>, v: seq<real>, m: nat)
    requires |b| == |v| && Within(b, m)
    ensures SumNat(Counts(b, m)) == |b|
    ensures Weighted(Means(b, v, m), Counts(b, m)) == Sum(v)
  {
    BinsPartition(b, v, m);
    WeightedBelow(b, v, m);
  }

  // ---- the means of x increase

  /** A greater bin means a greater x. */
  predicate Separates(b: seq<int>, x: seq<real>) {
    |b| == |x| && forall i, j :: 0 <= i < |b| && 0 <= j < |b| && b[i] < b[j] ==> x[i] < x[j]
  }

  /** The sample with the least x of an occupied bin. */
  lemma {:induction false} Least(b: seq<int>, x: seq<real>, k: int) returns (j: nat)
    requires |b| == |x| && Count(b, k) > 0
    ensures j < |b| && b[j] == k && forall i :: 0 <= i < |b| && b[i] == k ==> x[j] <= x[i]
    decreases |b|
  {
    var n := |b| - 1;
    if Count(b[..n], k) == 0 {
      NoneCounted(b[..n], k);
      assert forall i :: 0 <= i < n ==> b[..n][i] == b[i];
      j := n;
    } else {
      j := Least(b[..n], x[..n], k);
      assert forall i :: 0 <= i < n ==> b[..n][i] == b[i] && x[..n][i] == x[i];
      if b[n] == k && x[n] < x[j] {
        j := n;
      }
    }
  }

  lemma {:induction false} NoneCounted(b: seq<int>, k: int)
    requires Count(b, k) == 0
    ensures forall i :: 0 <= i < |b| ==> b[i] != k
    decreases |b|
  {
    if b == [] {
    } else {
      NoneCounted(b[..|b| - 1], k);
      assert forall i :: 0 <= i < |b| - 1 ==> b[..|b| - 1][i] == b[i];
    }
  }

  predicate AtLeast(b: seq<int>, x: seq<real>, k: int, t: real)
    requires |b| == |x|
  {
    forall i :: 0 <= i < |b| && b[i] == k ==> t <= x[i]
  }

  predicate LessThan(b: seq<int>, x: seq<real>, k: int, t: real)
    requires |b| == |x|
  {
    forall i :: 0 <= i < |b| && b[i] == k ==> x[i] < t
  }

  lemma {:induction false} TotalAtLeast(b: seq<int>, x: seq<real>, k: int, t: real)
    requires |b| == |x| && AtLeast(b, x, k, t)
    ensures Times(t, Count(b, k)) <= Total(b, x, k)
    decreases |b|
  {
    if b == [] {
    } else {
      var n := |b| - 1;
      assert forall i :: 0 <= i < n ==> b[..n][i] == b[i] && x[..n][i] == x[i];
      TotalAtLeast(b[..n], x[..n], k, t);
    }
  }

  lemma {:induction false} TotalLessThan(b: seq<int>, x: seq<real>, k: int, t: real)
    requires |b| == |x| && LessThan(b, x, k, t)
    ensures if Count(b, k) == 0 then Total(b, x, k) == 0.0 else Total(b, x, k) < Times(t, Count(b, k))
    decreases |b|
  {
    if b == [] {
    } else {
      var n := |b| - 1;
      assert forall i :: 0 <= i < n ==> b[..n][i] == b[i] && x[..n][i] == x[i];
      TotalLessThan(b[..n], x[..n], k, t);
    }
  }

  lemma {:induction false} MeanAgainst(total: real, count: nat, t: real)
    requires count > 0
    ensures Times(t, count) <= total ==> t <= total / count as real
    ensures total < Times(t, count) ==> total / count as real < t
  {
    MeanTimes(total, count);
    if total / count as real < t {
      TimesIncreases(total / count as real, t, count);
    }
    if t <= total / count as real && t != total / count as real {
      TimesIncreases(t, total / count as real, count);
    }
  }

  lemma {:induction false} TimesIncreases(a: real, b: real, count: nat)
    requires a < b && count > 0
    ensures Times(a, count) < Times(b, count)
    decreases count
  {
    if count <= 1 {
    } else {
      TimesIncreases(a, b, count - 1);
    }
  }

  lemma {:induction false} MeansIncrease(b: seq<int>, x: seq<real>, j: int, k: int)
    requires Separates(b, x) && j < k && Count(b, j) > 0 && Count(b, k) > 0
    ensures Mean(b, x, j) < Mean(b, x, k)
  {
    var least := Least(b, x, k);
    var t := x[least];
    TotalLessThan(b, x, j, t);
    TotalAtLeast(b, x, k, t);
    MeanAgainst(Total(b, x, j), Count(b, j), t);
    MeanAgainst(Total(b, x, k), Count(b, k), t);
  }

  /** The i-th mean is that of the i-th occupied bin, and occupied bins are in order. */
  lemma {:induction false} MeansOf(b: seq<int>, v: seq<real>, m: nat, i: nat)
    requires |b| == |v| && i < |Occupied(b, m)|
    ensures var k := Occupied(b, m)[i];
      k < m && Count(b, k) > 0 && Means(b, v, m)[i] == Mean(b, v, k)
    ensures forall j :: i < j < |Occupied(b, m)| ==> Occupied(b, m)[i] < Occupied(b, m)[j]
    decreases m
  {
    var before := Occupied(b, m - 1);
    if i >= |before| {
    } else {
      MeansOf(b, v, m - 1, i);
    }
  }

  /** The means of x are strictly increasing. */
  lemma {:induction false} MeansSorted(b: seq<int>, x: seq<real>, m: nat)
    requires Separates(b, x)
    ensures forall i, j :: 0 <= i < j < |Means(b, x, m)| ==> Means(b, x, m)[i] < Means(b, x, m)[j]
  {
    var bins := Occupied(b, m);
    forall i, j | 0 <= i < j < |bins| ensures Means(b, x, m)[i] < Means(b, x, m)[j] {
      MeansOf(b, x, m, i);
      MeansOf(b, x, m, j);
      MeansIncrease(b, x, bins[i], bins[j]);
    }
  }

  function Bins(g: Grid, x: seq<real>): (b: seq<int>)
    requires g.Valid()
    ensures |b| == |x| && forall i :: 0 <= i < |b| ==> b[i] == g.Bin(x[i])
  {
    seq(|x|, i requires 0 <= i < |x| => g.Bin(x[i]))
  }

  lemma {:induction false} BinsWithin(g: Grid, x: seq<real>)
    requires g.Valid()
    ensures Within(Bins(g, x), g.bins) && Separates(Bins(g, x), x)
  {
    var b := Bins(g, x);
    forall i | 0 <= i < |b| ensures 0 <= b[i] < g.bins {
      BinInRange(g, x[i]);
    }
    forall i, j | 0 <= i < |b| && 0 <= j < |b| && b[i] < b[j] ensures x[i] < x[j] {
      if x[j] <= x[i] {
        BinMonotone(g, x[j], x[i]);
      }
    }
  }

  /** What the resampler promises of its two results. */
  ghost predicate Good(x: seq<real>, y: seq<real>, xs: seq<real>, ys: seq<real>, counts: seq<nat>)
    requires |x| == |y|
  {
    && |xs| == |ys| == |counts| <= NB_INTERVAL
    && (forall i :: 0 <= i < |counts| ==> counts[i] > 0)
    && SumNat(counts) == |x|
    && Weighted(xs, counts) == Sum(x) && Weighted(ys, counts) == Sum(y)
    && forall i, j :: 0 <= i < j < |xs| ==> xs[i] < xs[j]
  }

  lemma {:induction false} CountsPositive(b: seq<int>, m: nat)
    ensures |Counts(b, m)| <= m && forall i :: 0 <= i < |Counts(b, m)| ==> Counts(b, m)[i] > 0
    decreases m
  {
    if m == 0 {
    } else {
      CountsPositive(b, m - 1);
    }
  }

  lemma {:induction false} ResampledGood(g: Grid, x: seq<real>, y: seq<real>)
    requires g.Valid() && |x| == |y| && g.bins == NB_INTERVAL
    ensures var b := Bins(g, x);
      Good(x, y, Means(b, x, g.bins), Means(b, y, g.bins), Counts(b, g.bins))
  {
    var b := Bins(g, x);
    BinsWithin(g, x);
    MeansConserve(b, x, g.bins);
    MeansConserve(b, y, g.bins);
    MeansSorted(b, x, g.bins);
    CountsPositive(b, g.bins);
  }

  // ---- the resampler

  method MinMax(x: seq<real>) returns (xMin: real, xMax: real)
    requires x != []
    ensures xMin in x && xMax in x && forall i :: 0 <= i < |x| ==> xMin <= x[i] <= xMax
  {
    xMin, xMax := x[0], x[0];
    for i := 1 to |x|
      invariant xMin in x && xMax in x && forall j :: 0 <= j < i ==> xMin <= x[j] <= xMax
    {
      if x[i] < xMin {
        xMin := x[i];
      }
      if x[i] > xMax {
        xMax := x[i];
      }
    }
  }

  predicate Spans(g: Grid, x: seq<real>) {
    && g.bins == 2000 && g.lo in x && g.hi in x && g.lo <= g.hi
    && forall i :: 0 <= i < |x| ==> g.lo <= x[i] <= g.hi
  }

  method ResampleWithDeltaX(x: seq<real>, y: seq<real>) returns (r: Result, ghost g: Grid, ghost counts: seq<nat>)
    ensures x == [] ==> r == Failed(NoSamples)
    ensures x != [] && |y| < |x| ==> r == Failed(MissingY)
    ensures x != [] && |x| <= |y| ==>
      && Spans(g, x) && r.Resampled?
      && r.x == Means(Bins(g, x), x, g.bins) && r.y == Means(Bins(g, x), y[..|x|], g.bins)
      && Good(x, y[..|x|], r.x, r.y, counts)
  {
    g, counts := Grid(0.0, 0.0, NB_INTERVAL), [];
    if x == [] {
      return Failed(NoSamples), g, [];
    }
    var xMin, xMax := MinMax(x);
    var grid := Grid(xMin, xMax, NB_INTERVAL);
    g := grid;
    ghost var b := Bins(g, x);
    BinsWithin(g, x);
    var resampledX := new real[NB_INTERVAL](_ => 0.0);
    var resampledY := new real[NB_INTERVAL](_ => 0.0);
    var resampledCount := new nat[NB_INTERVAL](_ => 0);
    var ok := Accumulate(grid, x, y, resampledX, resampledY, resampledCount);
    if !ok {
      return Failed(MissingY), g, [];
    }
    var xs, ys := Compact(b, x, y[..|x|], resampledX, resampledY, resampledCount);
    counts := Counts(b, g.bins);
    ResampledGood(g, x, y[..|x|]);
    r := Resampled(xs, ys);
  }

  lemma {:induction false} CountNext(b: seq<int>, n: nat)
    requires n < |b|
    ensures forall k :: Count(b[..n + 1], k) == Count(b[..n], k) + if b[n] == k then 1 else 0
  {
    assert b[..n + 1][..n] == b[..n];
  }

  lemma {:induction false} TotalNext(b: seq<int>, v: seq<real>, n: nat)
    requires n < |b| && n < |v|
    ensures forall k :: Total(b[..n + 1], v[..n + 1], k) == Total(b[..n], v[..n], k) + if b[n] == k then v[n] else 0.0
  {
    assert b[..n + 1][..n] == b[..n] && v[..n + 1][..n] == v[..n];
  }

  /** Adds every sample to its bin; stops when y runs out. */
  method Accumulate(grid: Grid, x: seq<real>, y: seq<real>,
                    resampledX: array<real>, resampledY: array<real>, resampledCount: array<nat>) returns (ok: bool)
    requires grid.Valid() && resampledX.Length == resampledY.Length == resampledCount.Length == grid.bins
    requires resampledX != resampledY
    requires forall k :: 0 <= k < grid.bins ==> resampledX[k] == 0.0 && resampledY[k] == 0.0 && resampledCount[k] == 0
    modifies resampledX, resampledY, resampledCount
    ensures ok <==> |x| <= |y|
    ensures ok ==> forall k :: 0 <= k < grid.bins ==> resampledCount[k] == Count(Bins(grid, x), k)
    ensures ok ==> forall k :: 0 <= k < grid.bins ==> resampledX[k] == Total(Bins(grid, x), x, k)
    ensures ok ==> forall k :: 0 <= k < grid.bins ==> resampledY[k] == Total(Bins(grid, x), y[..|x|], k)
  {
    ghost var b := Bins(grid, x);
    BinsWithin(grid, x);
    for idx := 0 to |x|
      invariant idx <= |y|
      invariant forall k :: 0 <= k < grid.bins ==> resampledCount[k] == Count(b[..idx], k)
      invariant forall k :: 0 <= k < grid.bins ==> resampledX[k] == Total(b[..idx], x[..idx], k)
      invariant forall k :: 0 <= k < grid.bins ==> resampledY[k] == Total(b[..idx], y[..idx], k)
    {
      var binIdx := grid.Bin(x[idx]);
      assert binIdx == b[idx];
      if |y| <= idx {
        return false;
      }
      resampledY[binIdx] := resampledY[binIdx] + y[idx];
      resampledX[binIdx] := resampledX[binIdx] + x[idx];
      resampledCount[binIdx] := resampledCount[binIdx] + 1;
      CountNext(b, idx);
      TotalNext(b, x, idx);
      TotalNext(b, y, idx);
    }
    assert b[..|x|] == b && x[..|x|] == x;
    return true;
  }

  /** Keeps the occupied bins, and divides their totals by their counts. */
  method Compact(ghost b: seq<int>, ghost x: seq<real>, ghost v: seq<real>,
                 resampledX: array<real>, resampledY: array<real>, resampledCount: array<nat>)
    returns (xs: seq<real>, ys: seq<real>)
    requires |b| == |x| == |v|
    requires resampledX.Length == resampledY.Length == resampledCount.Length
    requires forall k :: 0 <= k < resampledCount.Length ==> resampledCount[k] == Count(b, k)
    requires forall k :: 0 <= k < resampledX.Length ==> resampledX[k] == Total(b, x, k)
    requires forall k :: 0 <= k < resampledY.Length ==> resampledY[k] == Total(b, v, k)
    ensures xs == Means(b, x, resampledX.Length) && ys == Means(b, v, resampledX.Length)
  {
    xs, ys := [], [];
    for k := 0 to resampledX.Length
      invariant xs == Means(b, x, k) && ys == Means(b, v, k)
    {
      if resampledCount[k] != 0 {
        xs := xs + [resampledX[k] / resampledCount[k] as real];
        ys := ys + [resampledY[k] / resampledCount[k] as real];
      }
    }
  }
}
