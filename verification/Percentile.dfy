/** Interpolated percentiles of a list of latencies, and the summary built from them. */
module Percentile {
  import opened Arithmetic
  import opened Sequences

  function Insert(x: real, s: seq<real>): seq<real> {
    if s == [] || x <= s[0] then [x] + s else [s[0]] + Insert(x, s[1..])
  }

  /** `sorted`. */
  function Sort(s: seq<real>): seq<real> {
    if s == [] then [] else Insert(s[0], Sort(s[1..]))
  }

  ghost predicate Sorted(s: seq<real>) {
    forall i, j :: 0 <= i <= j < |s| ==> s[i] <= s[j]
  }

  lemma {:induction false} InsertElements(x: real, s: seq<real>)
    ensures multiset(Insert(x, s)) == multiset{x} + multiset(s) && |Insert(x, s)| == |s| + 1
  {
    if s != [] && x > s[0] {
      InsertElements(x, s[1..]);
      assert s == [s[0]] + s[1..];
    }
  }

  lemma SortedCons(x: real, s: seq<real>)
    requires Sorted(s) && forall v :: v in s ==> x <= v
    ensures Sorted([x] + s)
  {
    var all := [x] + s;
    forall i, j | 0 <= i <= j < |all| ensures all[i] <= all[j] {
      assert j > 0 ==> all[j] == s[j - 1] && s[j - 1] in s;
      assert i > 0 ==> all[i] == s[i - 1];
    }
  }

  lemma {:induction false} InsertSorts(x: real, s: seq<real>)
    requires Sorted(s)
    ensures Sorted(Insert(x, s))
  {
    if s == [] || x <= s[0] {
      SortedCons(x, s);
    } else {
      InsertSorts(x, s[1..]);
      InsertElements(x, s[1..]);
      forall v | v in Insert(x, s[1..]) ensures s[0] <= v {
        assert v in multiset(Insert(x, s[1..]));
        assert v == x || v in s[1..];
      }
      SortedCons(s[0], Insert(x, s[1..]));
    }
  }

  lemma {:induction false} SortSorts(s: seq<real>)
    ensures Sorted(Sort(s)) && multiset(Sort(s)) == multiset(s) && |Sort(s)| == |s|
  {
    if s != [] {
      SortSorts(s[1..]);
      InsertSorts(s[0], Sort(s[1..]));
      InsertElements(s[0], Sort(s[1..]));
      assert s == [s[0]] + s[1..];
    }
  }

  lemma SameHead(s: seq<real>, t: seq<real>)
    requires Sorted(s) && Sorted(t) && s != [] && t != [] && multiset(s) == multiset(t)
    ensures s[0] == t[0]
  {
    assert s[0] in multiset(t) && t[0] in multiset(s);
  }

  lemma SameTail(s: seq<real>, t: seq<real>)
    requires s != [] && t != [] && s[0] == t[0] && multiset(s) == multiset(t)
    ensures multiset(s[1..]) == multiset(t[1..])
  {
    assert s == [s[0]] + s[1..] && t == [t[0]] + t[1..];
    assert multiset(s) == multiset{s[0]} + multiset(s[1..]);
    assert multiset(t) == multiset{t[0]} + multiset(t[1..]);
    assert multiset(s[1..]) == multiset(s) - multiset{s[0]};
  }

  lemma SameLength(s: seq<real>, t: seq<real>)
    requires multiset(s) == multiset(t)
    ensures |s| == |t|
  {
    assert |s| == |multiset(s)| && |t| == |multiset(t)|;
  }

  /** A sorted list is determined by its elements. */
  lemma {:induction false} SortedUnique(s: seq<real>, t: seq<real>)
    requires Sorted(s) && Sorted(t) && multiset(s) == multiset(t)
    ensures s == t
  {
    SameLength(s, t);
    if s != [] {
      SameHead(s, t);
      SameTail(s, t);
      SortedUnique(s[1..], t[1..]);
      assert s == [s[0]] + s[1..] && t == [t[0]] + t[1..];
    }
  }

  /** The value at fractional rank `k` of a sorted list. */
  function At(ordered: seq<real>, k: real): real
    requires ordered != [] && 0.0 <= k <= (|ordered| - 1) as real
  {
    var f := k.Floor;
    var c := if f + 1 <= |ordered| - 1 then f + 1 else |ordered| - 1;
    if f == c then ordered[f]
    else ordered[f] * (c as real - k) + ordered[c] * (k - f as real)
  }

  function Part(share: real, top: real): real {
    share * top
  }

  lemma PartBounds(share: real, top: real)
    requires 0.0 <= share <= 1.0 && 0.0 <= top
    ensures 0.0 <= Part(share, top) <= top
  {
    NonNegative(share, top);
    Scale(top, share, 1.0);
  }

  lemma PartMonotone(low: real, high: real, top: real)
    requires low <= high && 0.0 <= top
    ensures Part(low, top) <= Part(high, top)
  {
    Scale(top, low, high);
  }

  /** The share `pct / 100` of the way to the last index. */
  function Rank(n: nat, pct: real): (k: real)
    requires n > 0 && 0.0 <= pct <= 100.0
    ensures 0.0 <= k <= (n - 1) as real
  {
    PartBounds(pct / 100.0, (n - 1) as real);
    Part(pct / 100.0, (n - 1) as real)
  }

  /** `_percentile`. */
  function Percentile(values: seq<real>, pct: real): real
    requires 0.0 <= pct <= 100.0
  {
    if values == [] then 0.0
    else
      SortSorts(values);
      At(Sort(values), Rank(|values|, pct))
  }

  lemma Interpolation(a: real, b: real, k: real, f: real)
    requires a <= b && f <= k <= f + 1.0
    ensures a * (f + 1.0 - k) + b * (k - f) == a + (b - a) * (k - f)
    ensures a <= a + (b - a) * (k - f) <= b
  {
    var d := k - f;
    NonNegative(b - a, d);
    NonNegative(b - a, 1.0 - d);
    assert (b - a) * (1.0 - d) == (b - a) - (b - a) * d;
  }

  /** A fractional rank lies between its two neighbours. */
  lemma Between(ordered: seq<real>, k: real)
    requires ordered != [] && Sorted(ordered) && 0.0 <= k <= (|ordered| - 1) as real
    ensures var f := k.Floor;
            && 0 <= f < |ordered|
            && ordered[f] <= At(ordered, k)
            && (f + 1 < |ordered| ==> At(ordered, k) <= ordered[f + 1])
            && (f + 1 == |ordered| ==> At(ordered, k) == ordered[f])
  {
    var f := k.Floor;
    if f + 1 < |ordered| {
      Interpolation(ordered[f], ordered[f + 1], k, f as real);
    }
  }

  /** Between two neighbouring ranks the value runs along the straight line through the two elements. */
  lemma AtSegment(ordered: seq<real>, f: nat, k: real)
    requires f + 1 < |ordered| && f as real <= k <= f as real + 1.0
    ensures At(ordered, k) == ordered[f] + (ordered[f + 1] - ordered[f]) * (k - f as real)
  {
    if k < f as real + 1.0 {
      assert k.Floor == f;
      Along(ordered[f], ordered[f + 1], k - f as real);
    } else {
      assert k.Floor == f + 1;
      if f + 2 < |ordered| {
        Along(ordered[f + 1], ordered[f + 2], 0.0);
      }
    }
  }

  lemma Along(a: real, b: real, d: real)
    ensures a * (1.0 - d) + b * d == a + (b - a) * d
  {
  }

  /** A whole rank is that element. */
  lemma AtWhole(ordered: seq<real>, k: nat)
    requires k < |ordered|
    ensures At(ordered, k as real) == ordered[k]
  {
    assert (k as real).Floor == k;
    if k + 1 < |ordered| {
      AtSegment(ordered, k, k as real);
    }
  }

  /** Halfway between two ranks of one segment lies the mean of their values. */
  lemma AtMidpoint(ordered: seq<real>, f: nat, k: real, l: real)
    requires f + 1 < |ordered| && f as real <= k <= l <= f as real + 1.0
    ensures At(ordered, (k + l) / 2.0) == (At(ordered, k) + At(ordered, l)) / 2.0
  {
    var m := (k + l) / 2.0;
    AtSegment(ordered, f, k);
    AtSegment(ordered, f, l);
    AtSegment(ordered, f, m);
    Halfway(ordered[f + 1] - ordered[f], k - f as real, l - f as real, m - f as real);
  }

  lemma Halfway(d: real, x: real, y: real, m: real)
    requires m == (x + y) / 2.0
    ensures d * m == (d * x + d * y) / 2.0
  {
    assert d * (x + y) == d * x + d * y;
  }

  lemma WithinSegment(a: real, b: real, k: real, l: real, f: real)
    requires a <= b && f <= k <= l <= f + 1.0
    ensures a * (f + 1.0 - k) + b * (k - f) <= a * (f + 1.0 - l) + b * (l - f)
  {
    Interpolation(a, b, k, f);
    Interpolation(a, b, l, f);
    NonNegative(b - a, l - k);
    assert (b - a) * (l - f) - (b - a) * (k - f) == (b - a) * (l - k);
  }

  /** Interpolation is monotone in the rank, within a segment and across segments. */
  lemma AtMonotone(ordered: seq<real>, k: real, l: real)
    requires ordered != [] && Sorted(ordered) && 0.0 <= k <= l <= (|ordered| - 1) as real
    ensures At(ordered, k) <= At(ordered, l)
  {
    Between(ordered, k);
    Between(ordered, l);
    var f, g := k.Floor, l.Floor;
    assert f <= g;
    if f == g {
      if f + 1 < |ordered| {
        WithinSegment(ordered[f], ordered[f + 1], k, l, f as real);
      }
    } else {
      assert ordered[f + 1] <= ordered[g];
    }
  }

  lemma RankMonotone(n: nat, p: real, q: real)
    requires n > 0 && 0.0 <= p <= q <= 100.0
    ensures Rank(n, p) <= Rank(n, q)
  {
    PartMonotone(p / 100.0, q / 100.0, (n - 1) as real);
  }

  /** The percentile is monotone in the requested rank. */
  lemma PercentileMonotone(values: seq<real>, p: real, q: real)
    requires 0.0 <= p <= q <= 100.0
    ensures Percentile(values, p) <= Percentile(values, q)
  {
    if values != [] {
      SortSorts(values);
      RankMonotone(|values|, p, q);
      AtMonotone(Sort(values), Rank(|values|, p), Rank(|values|, q));
    }
  }

  ghost predicate IsMin(values: seq<real>, m: real) {
    m in values && forall v :: v in values ==> m <= v
  }

  ghost predicate IsMax(values: seq<real>, m: real) {
    m in values && forall v :: v in values ==> v <= m
  }

  /** The ends of the scale are the least and the greatest value. */
  lemma PercentileEnds(values: seq<real>)
    requires values != []
    ensures IsMin(values, Percentile(values, 0.0)) && IsMax(values, Percentile(values, 100.0))
  {
    SortSorts(values);
    var o := Sort(values);
    var n := |o| - 1;
    assert Rank(|values|, 0.0) == 0.0 && Rank(|values|, 100.0) == n as real;
    Between(o, 0.0);
    Between(o, n as real);
    if |o| > 1 {
      Interpolation(o[0], o[1], 0.0, 0.0);
    }
    assert At(o, 0.0) == o[0] && At(o, n as real) == o[n];
    forall v | v in values ensures o[0] <= v <= o[n] {
      assert v in multiset(o);
    }
    assert o[0] in multiset(values) && o[n] in multiset(values);
  }

  lemma HalfRank(m: nat)
    ensures Rank(2 * m + 1, 50.0) == m as real
    ensures m > 0 ==> Rank(2 * m, 50.0) == ((m - 1) as real + m as real) / 2.0
  {
  }

  lemma MedianOdd(o: seq<real>, m: nat)
    requires |o| == 2 * m + 1
    ensures At(o, Rank(|o|, 50.0)) == o[m]
  {
    HalfRank(m);
    AtWhole(o, m);
  }

  lemma MedianEven(o: seq<real>, m: nat)
    requires m > 0 && |o| == 2 * m
    ensures At(o, Rank(|o|, 50.0)) == (o[m - 1] + o[m]) / 2.0
  {
    HalfRank(m);
    AtWhole(o, m - 1);
    AtWhole(o, m);
    AtMidpoint(o, m - 1, (m - 1) as real, m as real);
  }

  /** The 50th percentile is the median: the middle element, or the mean of the two middle ones. */
  lemma PercentileIsMedian(values: seq<real>)
    requires values != []
    ensures |Sort(values)| == |values|
    ensures var o, n := Sort(values), |values|;
            Percentile(values, 50.0) == if n % 2 == 1 then o[n / 2] else (o[n / 2 - 1] + o[n / 2]) / 2.0
  {
    SortSorts(values);
    var m := |values| / 2;
    if |values| % 2 == 1 {
      MedianOdd(Sort(values), m);
    } else {
      MedianEven(Sort(values), m);
    }
  }

  /** The order in which latencies arrive does not matter. */
  lemma PercentileOfPermutation(values: seq<real>, other: seq<real>, pct: real)
    requires multiset(values) == multiset(other) && 0.0 <= pct <= 100.0
    ensures Percentile(values, pct) == Percentile(other, pct)
  {
    SameLength(values, other);
    SortSorts(values);
    SortSorts(other);
    SortedUnique(Sort(values), Sort(other));
  }

  /** `statistics.mean`. */
  function Mean(values: seq<real>): real
    requires values != []
  {
    Sum(values) / |values| as real
  }

  lemma {:induction false} SumBounds(values: seq<real>, low: real, high: real)
    requires forall i :: 0 <= i < |values| ==> low <= values[i] <= high
    ensures Times(low, |values|) <= Sum(values) <= Times(high, |values|)
  {
    if values != [] {
      SumBounds(values[..|values| - 1], low, high);
    }
  }

  lemma RealQuotient(low: real, sum: real, high: real, n: real)
    requires n > 0.0 && low * n <= sum <= high * n
    ensures low <= sum / n <= high
  {
    var mean := sum / n;
    assert mean * n == sum;
    Cancel(low, mean, n);
    Cancel(mean, high, n);
  }

  lemma QuotientBounds(low: real, sum: real, high: real, k: nat)
    requires k > 0 && Times(low, k) <= sum <= Times(high, k)
    ensures low <= sum / k as real <= high
  {
    TimesIsProduct(low, k);
    TimesIsProduct(high, k);
    RealQuotient(low, sum, high, k as real);
  }

  /** The mean, once per value, is the sum. */
  lemma MeanTimes(values: seq<real>)
    requires values != []
    ensures Times(Mean(values), |values|) == Sum(values)
  {
    TimesIsProduct(Mean(values), |values|);
    UndoQuotient(Sum(values), |values| as real);
  }

  lemma UndoQuotient(x: real, n: real)
    requires n > 0.0
    ensures x / n * n == x
  {
  }

  lemma MeanBounds(values: seq<real>, low: real, high: real)
    requires values != [] && IsMin(values, low) && IsMax(values, high)
    ensures low <= Mean(values) <= high
  {
    forall i | 0 <= i < |values| ensures low <= values[i] <= high {
      assert values[i] in values;
    }
    SumBounds(values, low, high);
    QuotientBounds(low, Sum(values), high, |values|);
  }

  datatype RunStats = RunStats(count: nat, min: real, mean: real, p50: real, p95: real, p99: real, max: real)

  /** `_stats`. */
  method Stats(values: seq<real>) returns (r: RunStats)
    ensures r.count == |values|
    ensures values == [] ==> r == RunStats(0, 0.0, 0.0, 0.0, 0.0, 0.0, 0.0)
    ensures values != [] ==> IsMin(values, r.min) && IsMax(values, r.max)
    ensures r.p50 == Percentile(values, 50.0) && r.p95 == Percentile(values, 95.0) && r.p99 == Percentile(values, 99.0)
    ensures values != [] ==> r.mean == Mean(values) && r.min <= r.mean <= r.max
    ensures values != [] ==> var o, n := Sort(values), |values|;
              |o| == n && r.p50 == if n % 2 == 1 then o[n / 2] else (o[n / 2 - 1] + o[n / 2]) / 2.0
    ensures r.min <= r.p50 <= r.p95 <= r.p99 <= r.max
  {
    if values == [] {
      return RunStats(0, 0.0, 0.0, 0.0, 0.0, 0.0, 0.0);
    }
    var min, max := values[0], values[0];
    for i := 1 to |values|
      invariant IsMin(values[..i], min) && IsMax(values[..i], max)
    {
      if values[i] < min {
        min := values[i];
      }
      if values[i] > max {
        max := values[i];
      }
      assert values[..i + 1] == values[..i] + [values[i]];
    }
    assert values[..|values|] == values;
    MeanBounds(values, min, max);
    PercentileIsMedian(values);
    PercentileEnds(values);
    assert min == Percentile(values, 0.0) && max == Percentile(values, 100.0);
    PercentileMonotone(values, 0.0, 50.0);
    PercentileMonotone(values, 50.0, 95.0);
    PercentileMonotone(values, 95.0, 99.0);
    PercentileMonotone(values, 99.0, 100.0);
    r := RunStats(|values|, min, Mean(values), Percentile(values, 50.0), Percentile(values, 95.0), Percentile(values, 99.0), max);
  }
}
