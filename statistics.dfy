/**
 * Summary statistics of a list of delays in minutes, as the statistics card shows
 * them: count, mean, median, quartiles, minimum and maximum. The standard deviation
 * is not part of this model.
 */
module Statistics {

  import opened Common
  import opened Sorting

  function Identity(x: real): real { x }

  /** `[...delays].sort((a, b) => a - b)`. */
  function Ascend(ds: seq<real>): (sorted: seq<real>)
    ensures |sorted| == |ds| && multiset(sorted) == multiset(ds)
    ensures forall i, j :: 0 <= i <= j < |sorted| ==> sorted[i] <= sorted[j]
  {
    var sorted := Sort(ds, Identity);
    SortIsSortedPermutation(ds, Identity);
    assert |sorted| == |multiset(sorted)| == |multiset(ds)| == |ds|;
    sorted
  }

  function Mean(ds: seq<real>): real
    requires ds != []
  {
    Sum(ds) / |ds| as real
  }

  /** The middle value of a sorted list, or the mean of the two middle values when its length is even. */
  function Median(sorted: seq<real>): real
    requires sorted != []
  {
    var n := |sorted|;
    if n % 2 == 0 then (sorted[n / 2 - 1] + sorted[n / 2]) / 2.0 else sorted[n / 2]
  }

  /** `Math.floor(n * 0.25)` and `Math.floor(n * 0.75)`. */
  function QuarterIndex(n: nat): (i: nat)
    ensures i == n / 4
  {
    var i := (n as real * 0.25).Floor;
    assert n as real * 0.25 == (n / 4) as real + (n % 4) as real * 0.25;
    i
  }

  function ThreeQuarterIndex(n: nat): (i: nat)
    ensures i == (3 * n) / 4
  {
    var i := (n as real * 0.75).Floor;
    assert n as real * 0.75 == ((3 * n) / 4) as real + ((3 * n) % 4) as real * 0.25;
    i
  }

  datatype DelayStatistics = DelayStatistics(count: nat, mean: real, median: real, min: real, max: real, q1: real, q3: real)

  const NoStatistics := DelayStatistics(0, 0.0, 0.0, 0.0, 0.0, 0.0, 0.0)

  /** The statistics card's figures; all zero when there are no delays. */
  function DelayStatisticsOf(ds: seq<real>): (st: DelayStatistics)
    ensures st.count == |ds|
    ensures ds == [] ==> st == NoStatistics
  {
    if ds == [] then NoStatistics
    else
      var sorted := Ascend(ds);
      var n := |sorted|;
      DelayStatistics(n, Mean(ds), Median(sorted), sorted[0], sorted[n - 1],
                      sorted[QuarterIndex(n)], sorted[ThreeQuarterIndex(n)])
  }

  /** The least and greatest delay bound every delay, and both occur among the delays. */
  lemma ExtremesBound(ds: seq<real>)
    requires ds != []
    ensures var st := DelayStatisticsOf(ds);
            st.min in ds && st.max in ds && forall d :: d in ds ==> st.min <= d <= st.max
  {
    var sorted := Ascend(ds);
    assert sorted[0] in multiset(sorted) && sorted[|sorted| - 1] in multiset(sorted);
    forall d | d in ds ensures sorted[0] <= d <= sorted[|sorted| - 1] {
      assert d in multiset(sorted);
      var i :| 0 <= i < |sorted| && sorted[i] == d;
    }
  }

  /** The mean of values within [lo, hi] lies within [lo, hi]. */
  lemma MeanBounded(ds: seq<real>, lo: real, hi: real)
    requires ds != [] && forall i :: 0 <= i < |ds| ==> lo <= ds[i] <= hi
    ensures lo <= Mean(ds) <= hi
  {
    SumBounds(ds, lo, hi);
    DivideBounds(Sum(ds), |ds| as real, lo, hi);
  }

  /** The mean lies between the least and the greatest delay. */
  lemma MeanBetweenExtremes(ds: seq<real>)
    requires ds != []
    ensures DelayStatisticsOf(ds).min <= DelayStatisticsOf(ds).mean <= DelayStatisticsOf(ds).max
  {
    ExtremesBound(ds);
    var lo, hi := DelayStatisticsOf(ds).min, DelayStatisticsOf(ds).max;
    forall i | 0 <= i < |ds| ensures lo <= ds[i] <= hi {
      assert ds[i] in ds;
    }
    MeanBounded(ds, lo, hi);
  }

  lemma DivideBounds(total: real, n: real, lo: real, hi: real)
    requires n > 0.0 && n * lo <= total <= n * hi
    ensures lo <= total / n <= hi
  {
    assert total / n * n == total;
  }

  /** min ≤ q1 ≤ median ≤ q3 ≤ max: the quartile indices are in range and ordered. */
  lemma FiguresOrdered(ds: seq<real>)
    requires ds != []
    ensures var st := DelayStatisticsOf(ds);
            st.min <= st.q1 <= st.median <= st.q3 <= st.max
  {
    var sorted := Ascend(ds);
    var n := |sorted|;
    var q1, q3 := n / 4, (3 * n) / 4;
    if n % 2 == 0 {
      assert q1 <= n / 2 - 1 < n / 2 <= q3;
      assert sorted[q1] <= sorted[n / 2 - 1] <= sorted[n / 2] <= sorted[q3];
    } else {
      assert q1 <= n / 2 <= q3;
    }
  }

  /** The figures of the configuration comparison: mean, median, minimum and maximum. */
  datatype ConfigurationStats = ConfigurationStats(mean: real, median: real, min: real, max: real)

  function CalculateStatistics(ds: seq<real>): (st: ConfigurationStats)
    ensures ds == [] ==> st == ConfigurationStats(0.0, 0.0, 0.0, 0.0)
  {
    if ds == [] then ConfigurationStats(0.0, 0.0, 0.0, 0.0)
    else
      var sorted := Ascend(ds);
      ConfigurationStats(Mean(ds), Median(sorted), sorted[0], sorted[|sorted| - 1])
  }

  /** The comparison figures are the statistics card's figures for the same delays. */
  lemma ConfigurationStatsAgree(ds: seq<real>)
    ensures var c := CalculateStatistics(ds);
            var st := DelayStatisticsOf(ds);
            c.mean == st.mean && c.median == st.median && c.min == st.min && c.max == st.max
  {
  }

  /** So the comparison's figures are ordered the same way. */
  lemma ConfigurationStatsOrdered(ds: seq<real>)
    requires ds != []
    ensures var c := CalculateStatistics(ds);
            c.min <= c.median <= c.max && c.min <= c.mean <= c.max
  {
    FiguresOrdered(ds);
    MeanBetweenExtremes(ds);
  }
}
