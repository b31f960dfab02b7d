/**
 * One-pass statistics against their quadratic definitions: the CUSUM chart
 * (`aiswarm/quant/drift.py`) and the maximum drawdown (`aiswarm/intelligence/profiler.py`).
 */
module Drift {
  import opened Common

  // ------------------------------------------------------------------
  // The one-sided accumulator and its meaning
  // ------------------------------------------------------------------

  /** The accumulator after reading `ys`: it restarts at zero whenever it would turn negative. */
  function Accumulator(ys: seq<real>): real {
    if ys == [] then 0.0 else Max(0.0, Accumulator(ys[..|ys| - 1]) + ys[|ys| - 1])
  }

  /** The largest value the accumulator has had. */
  function Highest(ys: seq<real>): real {
    if ys == [] then 0.0 else Max(Highest(ys[..|ys| - 1]), Accumulator(ys))
  }

  /** `m` is the largest sum of a contiguous, possibly empty, segment of `ys`. */
  ghost predicate MaxSegmentSum(ys: seq<real>, m: real) {
    && (forall i, j | 0 <= i <= j <= |ys| :: Sum(ys[i..j]) <= m)
    && (exists i, j | 0 <= i <= j <= |ys| :: Sum(ys[i..j]) == m)
  }

  lemma SegmentEnd(ys: seq<real>, i: nat, j: nat)
    requires i < j <= |ys|
    ensures Sum(ys[i..j]) == Sum(ys[i..j - 1]) + ys[j - 1]
  {
    assert ys[i..j][..j - 1 - i] == ys[i..j - 1];
  }

  /** The accumulator is the largest sum of a segment that ends at the current point. */
  lemma {:induction false} AccumulatorIsBestSuffix(ys: seq<real>)
    ensures forall i | 0 <= i <= |ys| :: Sum(ys[i..|ys|]) <= Accumulator(ys)
    ensures exists i | 0 <= i <= |ys| :: Sum(ys[i..|ys|]) == Accumulator(ys)
  {
    var n := |ys|;
    assert Sum(ys[n..n]) == 0.0;
    if n > 0 {
      var before := ys[..n - 1];
      AccumulatorIsBestSuffix(before);
      forall i | 0 <= i <= n
        ensures Sum(ys[i..n]) <= Accumulator(ys)
      {
        if i < n {
          SegmentEnd(ys, i, n);
          assert before[i..n - 1] == ys[i..n - 1];
        }
      }
      var k :| 0 <= k <= n - 1 && Sum(before[k..n - 1]) == Accumulator(before);
      SegmentEnd(ys, k, n);
      assert before[k..n - 1] == ys[k..n - 1];
    }
  }

  /** The running maximum of the accumulator is the largest sum over all contiguous segments. */
  lemma {:induction false} HighestIsMaxSegment(ys: seq<real>)
    ensures MaxSegmentSum(ys, Highest(ys))
  {
    var n := |ys|;
    assert Sum(ys[n..n]) == 0.0;
    AccumulatorIsBestSuffix(ys);
    if n > 0 {
      var before := ys[..n - 1];
      HighestIsMaxSegment(before);
      forall i, j | 0 <= i <= j <= n
        ensures Sum(ys[i..j]) <= Highest(ys)
      {
        if j < n {
          assert before[i..j] == ys[i..j];
        }
      }
      if Highest(ys) == Highest(before) {
        var i, j :| 0 <= i <= j <= n - 1 && Sum(before[i..j]) == Highest(before);
        assert before[i..j] == ys[i..j];
      } else {
        var i :| 0 <= i <= n && Sum(ys[i..n]) == Accumulator(ys);
      }
    }
  }

  // ------------------------------------------------------------------
  // CUSUM
  // ------------------------------------------------------------------

  /** Steps of the upward accumulator: x minus the allowance. */
  function Rises(xs: seq<real>, allowance: real): seq<real> {
    seq(|xs|, i requires 0 <= i < |xs| => xs[i] - allowance)
  }

  /** Steps of the downward accumulator: minus x minus the allowance. */
  function Falls(xs: seq<real>, allowance: real): seq<real> {
    seq(|xs|, i requires 0 <= i < |xs| => -xs[i] - allowance)
  }

  function Normalize(data: seq<real>, mean: real, std: real): seq<real>
    requires std != 0.0
  {
    seq(|data|, i requires 0 <= i < |data| => (data[i] - mean) / std)
  }

  function Mean(xs: seq<real>): real
    requires xs != []
  {
    Sum(xs) / |xs| as real
  }

  datatype DriftResult =
    | InsufficientData
    | ZeroVariance
    | Cusum(driftDetected: bool, score: real, maxPositive: real, maxNegative: real,
            threshold: real, targetMean: real)

  /** Some contiguous segment of `ys` sums to more than the threshold. */
  ghost predicate SegmentAbove(ys: seq<real>, threshold: real) {
    exists i, j | 0 <= i <= j <= |ys| :: Sum(ys[i..j]) > threshold
  }

  /** Length times rate, as a real. */
  function Span(i: int, j: int, rate: real): real {
    (j - i) as real * rate
  }

  lemma SpanStep(i: int, j: int, rate: real)
    ensures Span(i, i, rate) == 0.0 && Span(i, j, rate) == Span(i, j - 1, rate) + rate
  {
  }

  lemma {:induction false} RisesSum(xs: seq<real>, allowance: real, i: nat, j: nat)
    requires i <= j <= |xs|
    ensures Sum(Rises(xs, allowance)[i..j]) == Sum(xs[i..j]) - Span(i, j, allowance)
    decreases j
  {
    hide Span;
    SpanStep(i, j, allowance);
    if i < j {
      RisesSum(xs, allowance, i, j - 1);
      SegmentEnd(Rises(xs, allowance), i, j);
      SegmentEnd(xs, i, j);
    }
  }

  lemma {:induction false} FallsSum(xs: seq<real>, allowance: real, i: nat, j: nat)
    requires i <= j <= |xs|
    ensures Sum(Falls(xs, allowance)[i..j]) == -Sum(xs[i..j]) - Span(i, j, allowance)
    decreases j
  {
    hide Span;
    SpanStep(i, j, allowance);
    if i < j {
      FallsSum(xs, allowance, i, j - 1);
      SegmentEnd(Falls(xs, allowance), i, j);
      SegmentEnd(xs, i, j);
    }
  }

  lemma {:induction false} NormalizedSum(data: seq<real>, mean: real, std: real, i: nat, j: nat)
    requires i <= j <= |data| && std != 0.0
    ensures Times(std, Sum(Normalize(data, mean, std)[i..j])) == Sum(data[i..j]) - Span(i, j, mean)
    decreases j
  {
    hide Span, Times;
    var xs := Normalize(data, mean, std);
    SpanStep(i, j, mean);
    if i < j {
      hide Normalize;
      NormalizedSum(data, mean, std, i, j - 1);
      SegmentEnd(xs, i, j);
      SegmentEnd(data, i, j);
      NormalizedAt(data, mean, std, j - 1);
      TimesAdd(std, Sum(xs[i..j - 1]), xs[j - 1]);
    } else {
      TimesAdd(std, 0.0, 0.0);
    }
  }

  lemma NormalizedAt(data: seq<real>, mean: real, std: real, k: nat)
    requires k < |data| && std != 0.0
    ensures Times(std, Normalize(data, mean, std)[k]) == data[k] - mean
  {
  }

  lemma TimesAdd(s: real, x: real, y: real)
    ensures Times(s, x + y) == Times(s, x) + Times(s, y)
  {
  }

  /** The stretch from `i` to `j` ran above its mean by more than the threshold and its allowances, in deviations. */
  predicate RunsAbove(data: seq<real>, mean: real, std: real, threshold: real, allowance: real, i: int, j: int)
    requires 0 <= i <= j <= |data|
  {
    Sum(data[i..j]) - Span(i, j, mean) > Times(std, threshold + Span(i, j, allowance))
  }

  predicate RunsBelow(data: seq<real>, mean: real, std: real, threshold: real, allowance: real, i: int, j: int)
    requires 0 <= i <= j <= |data|
  {
    Span(i, j, mean) - Sum(data[i..j]) > Times(std, threshold + Span(i, j, allowance))
  }

  lemma TimesOrder(std: real, x: real, y: real)
    requires std > 0.0
    ensures Times(std, x) > Times(std, y) <==> x > y
    ensures Times(std, -x) == -Times(std, x)
  {
    assert std * x - std * y == std * (x - y);
  }

  /** In the data's own terms: some stretch ran that far above, or below, the mean. */
  lemma DriftInData(data: seq<real>, mean: real, std: real, threshold: real, allowance: real)
    requires std > 0.0
    ensures var xs := Normalize(data, mean, std);
            && (SegmentAbove(Rises(xs, allowance), threshold)
                <==> exists i, j | 0 <= i <= j <= |data| :: RunsAbove(data, mean, std, threshold, allowance, i, j))
            && (SegmentAbove(Falls(xs, allowance), threshold)
                <==> exists i, j | 0 <= i <= j <= |data| :: RunsBelow(data, mean, std, threshold, allowance, i, j))
  {
    hide Normalize, Rises, Falls, Span, Times, Sum;
    var xs := Normalize(data, mean, std);
    var ups, downs := Rises(xs, allowance), Falls(xs, allowance);
    SameLengths(data, mean, std, allowance);
    forall i, j | 0 <= i <= j <= |data|
      ensures Sum(ups[i..j]) > threshold <==> RunsAbove(data, mean, std, threshold, allowance, i, j)
      ensures Sum(downs[i..j]) > threshold <==> RunsBelow(data, mean, std, threshold, allowance, i, j)
    {
      RisesSum(xs, allowance, i, j);
      FallsSum(xs, allowance, i, j);
      NormalizedSum(data, mean, std, i, j);
      TimesOrder(std, Sum(xs[i..j]), threshold + Span(i, j, allowance));
      TimesOrder(std, -Sum(xs[i..j]), threshold + Span(i, j, allowance));
      TimesOrder(std, Sum(xs[i..j]), 0.0);
    }
  }

  lemma SameLengths(data: seq<real>, mean: real, std: real, allowance: real)
    requires std != 0.0
    ensures |Normalize(data, mean, std)| == |data|
    ensures forall xs :: |Rises(xs, allowance)| == |xs| && |Falls(xs, allowance)| == |xs|
  {
  }

  lemma MeanMeans(xs: seq<real>)
    requires xs != []
    ensures Mean(xs) * |xs| as real == Sum(xs)
  {
  }

  /** The accumulator loop of `cusum_test`. */
  method CusumScan(xs: seq<real>, allowance: real) returns (maxPos: real, maxNeg: real)
    ensures MaxSegmentSum(Rises(xs, allowance), maxPos)
    ensures MaxSegmentSum(Falls(xs, allowance), maxNeg)
    ensures maxNeg == Highest(Falls(xs, allowance))
  {
    var sPos, sNeg := 0.0, 0.0;
    maxPos, maxNeg := 0.0, 0.0;
    ghost var ups, downs := Rises(xs, allowance), Falls(xs, allowance);
    for i := 0 to |xs|
      invariant sPos == Accumulator(ups[..i]) && maxPos == Highest(ups[..i])
      invariant sNeg == Accumulator(downs[..i]) && maxNeg == Highest(downs[..i])
    {
      assert ups[..i + 1][..i] == ups[..i] && downs[..i + 1][..i] == downs[..i];
      sPos := Max(0.0, sPos + xs[i] - allowance);
      sNeg := Max(0.0, sNeg - xs[i] - allowance);
      maxPos := Max(maxPos, sPos);
      maxNeg := Max(maxNeg, sNeg);
    }
    assert ups[..|xs|] == ups && downs[..|xs|] == downs;
    HighestIsMaxSegment(ups);
    HighestIsMaxSegment(downs);
  }

  /**
   * `cusum_test`; `std` is the standard deviation of the data. Drift is reported exactly when some
   * stretch of the normalised data moves up, or down, by more than the threshold after allowances.
   */
  method CusumTest(data: seq<real>, target: Option<real>, std: real, threshold: real, allowance: real)
    returns (result: DriftResult)
    ensures |data| < 20 <==> result.InsufficientData?
    ensures |data| >= 20 && std == 0.0 <==> result.ZeroVariance?
    ensures |data| >= 20 && std != 0.0 ==>
              && result.Cusum?
              && result.targetMean == (if target.Some? then target.value else Mean(data[..|data| / 2]))
              && result.threshold == threshold
              && var xs := Normalize(data, result.targetMean, std);
                 var ups, downs := Rises(xs, allowance), Falls(xs, allowance);
                 && MaxSegmentSum(ups, result.maxPositive) && MaxSegmentSum(downs, result.maxNegative)
                 && result.score == Max(result.maxPositive, result.maxNegative)
                 && (result.driftDetected <==> SegmentAbove(ups, threshold) || SegmentAbove(downs, threshold))
    ensures |data| >= 20 && std > 0.0 ==>
              (result.driftDetected <==>
                 exists i, j | 0 <= i <= j <= |data| ::
                   || RunsAbove(data, result.targetMean, std, threshold, allowance, i, j)
                   || RunsBelow(data, result.targetMean, std, threshold, allowance, i, j))
  {
    if |data| < 20 {
      return InsufficientData;
    }
    var mean := if target.Some? then target.value else Mean(data[..|data| / 2]);
    if std == 0.0 {
      return ZeroVariance;
    }
    var xs := Normalize(data, mean, std);
    var maxPos, maxNeg := CusumScan(xs, allowance);
    var score := Max(maxPos, maxNeg);
    result := Cusum(score > threshold, score, maxPos, maxNeg, threshold, mean);
    if std > 0.0 {
      DriftInData(data, mean, std, threshold, allowance);
    }
  }

  // ------------------------------------------------------------------
  // Drawdown
  // ------------------------------------------------------------------

  /** Cumulative return after `k` trades. */
  function Cumulative(gains: seq<real>, k: nat): real
    requires k <= |gains|
  {
    Sum(gains[..k])
  }

  /** The running peak of the cumulative return, never below zero. */
  function Peak(gains: seq<real>): real {
    if gains == [] then 0.0 else Max(Peak(gains[..|gains| - 1]), Sum(gains))
  }

  /** `m` is the largest fall from an earlier to a later cumulative return. */
  ghost predicate LargestFall(gains: seq<real>, m: real) {
    && (forall i, j | 0 <= i <= j <= |gains| :: Cumulative(gains, i) - Cumulative(gains, j) <= m)
    && (exists i, j | 0 <= i <= j <= |gains| :: Cumulative(gains, i) - Cumulative(gains, j) == m)
  }

  lemma {:induction false} FallIsSegment(gains: seq<real>, i: nat, j: nat)
    requires i <= j <= |gains|
    ensures Cumulative(gains, i) - Cumulative(gains, j) == Sum(Falls(gains, 0.0)[i..j])
    decreases j
  {
    var downs := Falls(gains, 0.0);
    if i == j {
      assert downs[i..j] == [];
    } else {
      FallIsSegment(gains, i, j - 1);
      SegmentEnd(downs, i, j);
      assert gains[..j][..j - 1] == gains[..j - 1];
    }
  }

  /** The gap below the running peak is the downward CUSUM accumulator with zero allowance. */
  lemma {:induction false} PeakGapIsCusum(gains: seq<real>)
    ensures Peak(gains) - Sum(gains) == Accumulator(Falls(gains, 0.0))
  {
    if gains != [] {
      var before := gains[..|gains| - 1];
      PeakGapIsCusum(before);
      assert Falls(gains, 0.0)[..|gains| - 1] == Falls(before, 0.0);
    }
  }

  lemma SegmentsAreFalls(gains: seq<real>, m: real)
    requires MaxSegmentSum(Falls(gains, 0.0), m)
    ensures LargestFall(gains, m)
  {
    forall i, j | 0 <= i <= j <= |gains|
      ensures Cumulative(gains, i) - Cumulative(gains, j) <= m
    {
      FallIsSegment(gains, i, j);
    }
    var i, j :| 0 <= i <= j <= |Falls(gains, 0.0)| && Sum(Falls(gains, 0.0)[i..j]) == m;
    FallIsSegment(gains, i, j);
  }

  /**
   * `_compute_max_drawdown`: the one pass finds the largest fall over all pairs of points, and it
   * is the downward CUSUM score of the returns with zero allowance.
   */
  method MaxDrawdown(gains: seq<real>) returns (maxDd: real)
    ensures LargestFall(gains, maxDd)
    ensures maxDd == Highest(Falls(gains, 0.0))
  {
    var cumulative, peak := 0.0, 0.0;
    maxDd := 0.0;
    ghost var downs := Falls(gains, 0.0);
    for i := 0 to |gains|
      invariant cumulative == Sum(gains[..i]) && peak == Peak(gains[..i])
      invariant maxDd == Highest(downs[..i])
    {
      assert gains[..i + 1][..i] == gains[..i] && downs[..i + 1][..i] == downs[..i];
      cumulative := cumulative + gains[i];
      if cumulative > peak {
        peak := cumulative;
      }
      var dd := peak - cumulative;
      PeakGapIsCusum(gains[..i + 1]);
      assert Falls(gains[..i + 1], 0.0) == downs[..i + 1];
      if dd > maxDd {
        maxDd := dd;
      }
    }
    assert downs[..|gains|] == downs;
    HighestIsMaxSegment(downs);
    SegmentsAreFalls(gains, maxDd);
  }
}
