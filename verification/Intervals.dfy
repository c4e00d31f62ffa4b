/** Linear quantiles and bootstrap intervals over resampled means. */
module Intervals {
  import opened Quotients

  // ---------------------------------------------------------------------
  // Sorting
  // ---------------------------------------------------------------------

  ghost predicate Ascending(xs: seq<real>) {
    forall i, j :: 0 <= i <= j < |xs| ==> xs[i] <= xs[j]
  }

  function Insert(xs: seq<real>, x: real): seq<real> {
    if xs == [] || x <= xs[0] then [x] + xs else [xs[0]] + Insert(xs[1..], x)
  }

  function Sorted(xs: seq<real>): seq<real> {
    if xs == [] then [] else Insert(Sorted(xs[1..]), xs[0])
  }

  lemma ConsAscending(x: real, ys: seq<real>)
    requires Ascending(ys) && forall y :: y in ys ==> x <= y
    ensures Ascending([x] + ys)
  {
    var all := [x] + ys;
    forall i, j | 0 <= i <= j < |all| ensures all[i] <= all[j] {
      if i == 0 && j > 0 { assert all[j] in ys; }
    }
  }

  lemma HeadIsLeast(xs: seq<real>)
    requires Ascending(xs) && xs != []
    ensures Ascending(xs[1..]) && forall y :: y in xs[1..] ==> xs[0] <= y
  {
  }

  lemma {:induction false} InsertSorts(xs: seq<real>, x: real)
    requires Ascending(xs)
    ensures Ascending(Insert(xs, x)) && multiset(Insert(xs, x)) == multiset(xs) + multiset{x}
    ensures forall y :: y in Insert(xs, x) <==> y in xs || y == x
  {
    if xs == [] {
    } else {
      HeadIsLeast(xs);
      assert xs == [xs[0]] + xs[1..];
      if x <= xs[0] {
        ConsAscending(x, xs);
      } else {
        InsertSorts(xs[1..], x);
        ConsAscending(xs[0], Insert(xs[1..], x));
      }
    }
  }

  lemma {:induction false} Sorts(xs: seq<real>)
    ensures Ascending(Sorted(xs)) && multiset(Sorted(xs)) == multiset(xs) && |Sorted(xs)| == |xs|
    ensures forall y :: y in Sorted(xs) <==> y in xs
  {
    if xs != [] {
      Sorts(xs[1..]);
      InsertSorts(Sorted(xs[1..]), xs[0]);
      assert xs == [xs[0]] + xs[1..];
    }
    assert |multiset(Sorted(xs))| == |multiset(xs)|;
  }

  // ---------------------------------------------------------------------
  // Quantiles
  // ---------------------------------------------------------------------

  /** The value at a fractional position of an ordered sample. */
  function At(ordered: seq<real>, position: real): real
    requires 0.0 <= position <= (|ordered| - 1) as real
  {
    var lower := position.Floor;
    if lower as real == position then ordered[lower]
    else Between(ordered[lower], ordered[lower + 1], position - lower as real)
  }

  function Between(a: real, b: real, weight: real): real {
    a + (b - a) * weight
  }

  lemma BetweenBounds(a: real, b: real, v: real, w: real)
    requires a <= b && 0.0 <= v <= w <= 1.0
    ensures a <= Between(a, b, v) <= Between(a, b, w) <= b
  {
    var d := b - a;
    assert d * v >= 0.0;
    assert d * (w - v) >= 0.0;
    assert d * (1.0 - w) >= 0.0;
  }

  /** A quantile lies between the two order statistics around its position. */
  lemma AtBounds(ordered: seq<real>, position: real)
    requires 0.0 <= position <= (|ordered| - 1) as real && Ascending(ordered)
    ensures var lower := position.Floor;
            var upper := if lower as real == position then lower else lower + 1;
            0 <= lower <= upper < |ordered| && ordered[lower] <= At(ordered, position) <= ordered[upper]
  {
    var lower := position.Floor;
    if lower as real != position {
      BetweenBounds(ordered[lower], ordered[lower + 1], 0.0, position - lower as real);
    }
  }

  lemma AtMonotone(ordered: seq<real>, p: real, q: real)
    requires 0.0 <= p <= q <= (|ordered| - 1) as real && Ascending(ordered)
    ensures At(ordered, p) <= At(ordered, q)
  {
    AtBounds(ordered, p);
    AtBounds(ordered, q);
    if p.Floor == q.Floor && p.Floor as real != p {
      BetweenBounds(ordered[p.Floor], ordered[p.Floor + 1], p - p.Floor as real, q - q.Floor as real);
    }
  }

  /** The fractional position of a probability among `last + 1` ordered values. */
  function Position(last: real, probability: real): (position: real)
    requires last >= 0.0 && 0.0 <= probability <= 1.0
    ensures 0.0 <= position <= last
  {
    PositionBounds(last, probability, 1.0);
    last * probability
  }

  lemma PositionBounds(n: real, p: real, q: real)
    requires n >= 0.0 && 0.0 <= p <= q <= 1.0
    ensures 0.0 <= n * p <= n * q <= n
  {
    assert n * (q - p) >= 0.0;
    assert n * (1.0 - q) >= 0.0;
  }

  function Quantile(values: seq<real>, probability: real): real
    requires values != [] && 0.0 <= probability <= 1.0
  {
    Sorts(values);
    At(Sorted(values), Position((|values| - 1) as real, probability))
  }

  /** The quantile at the k-th of n - 1 equal steps is the k-th order statistic;
      in between it moves in proportion. */
  lemma QuantileInterpolates(values: seq<real>, k: nat, weight: real)
    requires 0.0 <= weight < 1.0 && k + 1 < |values|
    ensures |Sorted(values)| == |values|
    ensures 0.0 <= (k as real + weight) / (|values| - 1) as real <= 1.0
    ensures Quantile(values, (k as real + weight) / (|values| - 1) as real)
         == (1.0 - weight) * Sorted(values)[k] + weight * Sorted(values)[k + 1]
  {
    Sorts(values);
    var n, p := (|values| - 1) as real, k as real + weight;
    QuotientBounds(p, n, 0.0, 1.0);
    PositionOf(n, p);
    AtBetween(Sorted(values), k, weight);
  }

  lemma PositionOf(last: real, position: real)
    requires last > 0.0 && 0.0 <= position / last <= 1.0
    ensures Position(last, position / last) == position
  {
  }

  lemma AtBetween(ordered: seq<real>, k: nat, weight: real)
    requires 0.0 <= weight < 1.0 && k + 1 < |ordered|
    ensures At(ordered, k as real + weight) == (1.0 - weight) * ordered[k] + weight * ordered[k + 1]
  {
    assert (k as real + weight).Floor == k;
    Blend(ordered[k], ordered[k + 1], weight);
  }

  lemma Blend(a: real, b: real, weight: real)
    ensures Between(a, b, weight) == (1.0 - weight) * a + weight * b
    ensures weight == 0.0 ==> Between(a, b, weight) == a
  {
  }

  /** The extreme quantiles are the least and the greatest value. */
  lemma QuantileExtremes(values: seq<real>)
    requires values != []
    ensures |Sorted(values)| == |values|
    ensures Quantile(values, 0.0) == Sorted(values)[0] && Quantile(values, 1.0) == Sorted(values)[|values| - 1]
  {
    Sorts(values);
    var n := (|values| - 1) as real;
    assert Position(n, 0.0) == 0.0 && Position(n, 1.0) == n;
  }

  ghost predicate Within(values: seq<real>, lo: real, hi: real) {
    forall v :: v in values ==> lo <= v <= hi
  }

  lemma PositionMonotone(last: real, p: real, q: real)
    requires last >= 0.0 && 0.0 <= p <= q <= 1.0
    ensures Position(last, p) <= Position(last, q)
  {
    PositionBounds(last, p, q);
  }

  lemma OrderedBounds(ordered: seq<real>, p: real, q: real, lo: real, hi: real)
    requires 0.0 <= p <= q <= (|ordered| - 1) as real && Ascending(ordered) && Within(ordered, lo, hi)
    ensures lo <= At(ordered, p) <= At(ordered, q) <= hi
  {
    forall i | 0 <= i < |ordered| ensures lo <= ordered[i] <= hi { assert ordered[i] in ordered; }
    AtMonotone(ordered, p, q);
    AtBounds(ordered, p);
    AtBounds(ordered, q);
  }

  /** Quantiles stay between the sample's extremes and grow with their probability. */
  lemma QuantileIsMonotone(values: seq<real>, p: real, q: real, lo: real, hi: real)
    requires values != [] && 0.0 <= p <= q <= 1.0 && Within(values, lo, hi)
    ensures lo <= Quantile(values, p) <= Quantile(values, q) <= hi
  {
    Sorts(values);
    var last := (|values| - 1) as real;
    PositionMonotone(last, p, q);
    OrderedBounds(Sorted(values), Position(last, p), Position(last, q), lo, hi);
  }

  // ---------------------------------------------------------------------
  // Bootstrap
  // ---------------------------------------------------------------------

  function Total(values: seq<real>, picks: seq<nat>): real
    requires forall i :: 0 <= i < |picks| ==> picks[i] < |values|
  {
    if picks == [] then 0.0
    else Total(values, picks[..|picks|-1]) + values[picks[|picks|-1]]
  }

  function Mean(values: seq<real>, picks: seq<nat>): real
    requires picks != [] && forall i :: 0 <= i < |picks| ==> picks[i] < |values|
  {
    Total(values, picks) / |picks| as real
  }

  lemma {:induction false} TotalBounds(values: seq<real>, picks: seq<nat>, lo: real, hi: real)
    requires Within(values, lo, hi) && forall i :: 0 <= i < |picks| ==> picks[i] < |values|
    ensures lo * |picks| as real <= Total(values, picks) <= hi * |picks| as real
  {
    if picks != [] {
      var n := |picks| - 1;
      TotalBounds(values, picks[..n], lo, hi);
      assert values[picks[n]] in values;
      OneMore(lo, n as real);
      OneMore(hi, n as real);
      assert |picks| as real == n as real + 1.0;
    }
  }

  lemma OneMore(x: real, n: real)
    ensures x * (n + 1.0) == x * n + x
  {
  }

  /** A mean is an average: a single pick is its value, and two samples together
      weigh as many picks as each has. */
  lemma MeanIsAverage(values: seq<real>, picks: seq<nat>, more: seq<nat>, k: nat)
    requires picks != [] && more != [] && k < |values|
    requires forall i :: 0 <= i < |picks| ==> picks[i] < |values|
    requires forall i :: 0 <= i < |more| ==> more[i] < |values|
    ensures Mean(values, [k]) == values[k]
    ensures Mean(values, picks + more) * |picks + more| as real
         == Mean(values, picks) * |picks| as real + Mean(values, more) * |more| as real
  {
    assert [k][..0] == [];
    assert Total(values, [k]) == Total(values, []) + values[k];
    TotalsAdd(values, picks, more);
    Rescaled(Total(values, picks), |picks|);
    Rescaled(Total(values, more), |more|);
    Rescaled(Total(values, picks + more), |picks + more|);
  }

  lemma Rescaled(total: real, n: nat)
    requires n > 0
    ensures total / n as real * n as real == total
  {
  }

  lemma {:induction false} TotalsAdd(values: seq<real>, picks: seq<nat>, more: seq<nat>)
    requires forall i :: 0 <= i < |picks| ==> picks[i] < |values|
    requires forall i :: 0 <= i < |more| ==> more[i] < |values|
    ensures Total(values, picks + more) == Total(values, picks) + Total(values, more)
  {
    if more == [] {
      assert picks + more == picks;
    } else {
      assert (picks + more)[..|picks + more|-1] == picks + more[..|more|-1];
      TotalsAdd(values, picks, more[..|more|-1]);
    }
  }

  lemma MeanBounds(values: seq<real>, picks: seq<nat>, lo: real, hi: real)
    requires picks != [] && Within(values, lo, hi) && forall i :: 0 <= i < |picks| ==> picks[i] < |values|
    ensures lo <= Mean(values, picks) <= hi
  {
    TotalBounds(values, picks, lo, hi);
    QuotientBounds(Total(values, picks), |picks| as real, lo, hi);
  }

  ghost predicate Resampling(draws: seq<seq<nat>>, n: nat) {
    forall d :: d in draws ==> |d| == n && forall i :: 0 <= i < n ==> d[i] < n
  }

  datatype Interval = Interval(lower: real, upper: real)

  function Means(values: seq<real>, draws: seq<seq<nat>>): (means: seq<real>)
    requires values != [] && forall d :: d in draws ==> |d| == |values| && forall i :: 0 <= i < |d| ==> d[i] < |values|
    ensures |means| == |draws|
  {
    seq(|draws|, k requires 0 <= k < |draws| => assert draws[k] in draws; Mean(values, draws[k]))
  }

  lemma MeansWithin(values: seq<real>, draws: seq<seq<nat>>, lo: real, hi: real)
    requires values != [] && Resampling(draws, |values|) && Within(values, lo, hi)
    ensures Within(Means(values, draws), lo, hi)
  {
    forall k | 0 <= k < |draws| ensures lo <= Means(values, draws)[k] <= hi {
      assert draws[k] in draws;
      MeanBounds(values, draws[k], lo, hi);
    }
  }

  /** The resampled means, one draw at a time. */
  method Resample(values: seq<real>, draws: seq<seq<nat>>) returns (means: seq<real>)
    requires values != [] && Resampling(draws, |values|)
    ensures means == Means(values, draws)
  {
    means := [];
    var i := 0;
    while i < |draws|
      invariant i <= |draws| && means == Means(values, draws)[..i]
    {
      assert draws[i] in draws;
      means := means + [Mean(values, draws[i])];
      i := i + 1;
    }
  }

  /** The interval of resampled means: the two symmetric quantiles. */
  method Bootstrap(values: seq<real>, draws: seq<seq<nat>>, confidence: real) returns (interval: Interval)
    requires values != [] && draws != [] && Resampling(draws, |values|) && 0.0 < confidence < 1.0
    ensures var alpha := (1.0 - confidence) / 2.0;
            interval == Interval(Quantile(Means(values, draws), alpha), Quantile(Means(values, draws), 1.0 - alpha))
  {
    var means := Resample(values, draws);
    var alpha := (1.0 - confidence) / 2.0;
    return Interval(Quantile(means, alpha), Quantile(means, 1.0 - alpha));
  }

  /** Whatever the resampling, the interval is ordered and inside the range of
      the values it was drawn from. */
  lemma IntervalIsSound(values: seq<real>, draws: seq<seq<nat>>, confidence: real, lo: real, hi: real)
    requires values != [] && draws != [] && Resampling(draws, |values|) && 0.0 < confidence < 1.0
    requires Within(values, lo, hi)
    ensures var means, alpha := Means(values, draws), (1.0 - confidence) / 2.0;
            lo <= Quantile(means, alpha) <= Quantile(means, 1.0 - alpha) <= hi
  {
    MeansWithin(values, draws, lo, hi);
    var alpha := (1.0 - confidence) / 2.0;
    QuantileIsMonotone(Means(values, draws), alpha, 1.0 - alpha, lo, hi);
  }
}
