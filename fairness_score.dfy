/** The overall fairness score of an audit: each group's distance as a fraction of the
    standard threshold, capped at one, averaged and scaled to a whole number of percent. */
module FairnessScore {
  import opened Thresholds
  import opened Rounding
  import opened Distances

  /** A group's distance relative to the standard threshold, capped at 1.0. */
  function Ratio(d: real): (r: real)
    ensures r <= 1.0
    ensures r == 1.0 <==> d >= STANDARD_THRESHOLD
    ensures d >= 0.0 ==> r >= 0.0
    ensures r < 1.0 ==> r * STANDARD_THRESHOLD == d
  {
    var q := d / STANDARD_THRESHOLD;
    if 1.0 < q then 1.0 else q
  }

  /** The ratios of the entries, one per entry. */
  function Ratios(distances: seq<GroupDistance>): (rs: seq<real>)
  {
    seq(|distances|, i requires 0 <= i < |distances| => Ratio(distances[i].averageDistance))
  }

  function Sum(xs: seq<real>): real
  {
    if xs == [] then 0.0 else Sum(xs[..|xs| - 1]) + xs[|xs| - 1]
  }

  /** The score reported for a list of group entries; no entries score 0. */
  function OverallFairness(distances: seq<GroupDistance>): int
  {
    if distances == [] then 0
    else RoundHalfEven(Sum(Ratios(distances)) / |distances| as real * 100.0)
  }

  lemma {:induction false} SumAtMost(xs: seq<real>, c: real)
    requires forall i :: 0 <= i < |xs| ==> xs[i] <= c
    ensures Sum(xs) <= |xs| as real * c
  {
    if xs != [] {
      SumAtMost(xs[..|xs| - 1], c);
    }
  }

  lemma {:induction false} SumAtLeast(xs: seq<real>, c: real)
    requires forall i :: 0 <= i < |xs| ==> xs[i] >= c
    ensures Sum(xs) >= |xs| as real * c
  {
    if xs != [] {
      SumAtLeast(xs[..|xs| - 1], c);
    }
  }

  /** Dividing by a positive count keeps bounds that hold after multiplying by it. */
  lemma DivWithin(s: real, n: real, lo: real, hi: real)
    requires n > 0.0
    requires lo * n <= s <= hi * n
    ensures lo <= s / n <= hi
  {
  }

  /** The mean of values in [lo, hi] lies in [lo, hi]. */
  lemma MeanWithin(xs: seq<real>, lo: real, hi: real)
    requires |xs| > 0
    requires forall i :: 0 <= i < |xs| ==> lo <= xs[i] <= hi
    ensures lo <= Sum(xs) / |xs| as real <= hi
  {
    SumAtMost(xs, hi);
    SumAtLeast(xs, lo);
    DivWithin(Sum(xs), |xs| as real, lo, hi);
  }

  /** The score is never above 100. */
  lemma ScoreAtMost100(distances: seq<GroupDistance>)
    ensures OverallFairness(distances) <= 100
  {
    if distances != [] {
      var rs := Ratios(distances);
      SumAtMost(rs, 1.0);
      var n := |distances| as real;
      var mean := Sum(rs) / n;
      assert mean * n == Sum(rs);
      assert mean <= 1.0;
      RoundAtMost(mean * 100.0, 100);
    }
  }

  /** With non-negative distances the score lies in [0, 100]. */
  lemma ScoreInRange(distances: seq<GroupDistance>)
    requires forall i :: 0 <= i < |distances| ==> distances[i].averageDistance >= 0.0
    ensures 0 <= OverallFairness(distances) <= 100
  {
    if distances != [] {
      var rs := Ratios(distances);
      MeanWithin(rs, 0.0, 1.0);
      RoundAtLeast(Sum(rs) / |distances| as real * 100.0, 0);
      RoundAtMost(Sum(rs) / |distances| as real * 100.0, 100);
    }
  }

  /** When every group's distance reaches the standard threshold the score is exactly 100. */
  lemma ScoreFullWhenAllAbove(distances: seq<GroupDistance>)
    requires |distances| > 0
    requires forall i :: 0 <= i < |distances| ==> distances[i].averageDistance >= STANDARD_THRESHOLD
    ensures OverallFairness(distances) == 100
  {
    var rs := Ratios(distances);
    MeanWithin(rs, 1.0, 1.0);
    RoundAtLeast(Sum(rs) / |distances| as real * 100.0, 100);
    RoundAtMost(Sum(rs) / |distances| as real * 100.0, 100);
  }

  /** `_compute_overall_fairness`: the ratio list is built in a loop, then averaged,
      scaled and rounded. */
  method ComputeOverallFairness(distances: seq<GroupDistance>) returns (score: int)
    ensures score == OverallFairness(distances)
    ensures score <= 100
    ensures distances == [] ==> score == 0
  {
    ScoreAtMost100(distances);
    if distances == [] {
      return 0;
    }
    var ratios: seq<real> := [];
    for i := 0 to |distances|
      invariant |ratios| == i
      invariant forall k :: 0 <= k < i ==> ratios[k] == Ratio(distances[k].averageDistance)
    {
      var q := distances[i].averageDistance / STANDARD_THRESHOLD;
      var ratio := if 1.0 < q then 1.0 else q;
      ratios := ratios + [ratio];
    }
    assert ratios == Ratios(distances);
    score := RoundHalfEven(Sum(ratios) / |ratios| as real * 100.0);
  }
}
