/**
 Threshold calibration over a grid: confusion counts at each threshold, and the thresholds chosen for
 given false-positive and false-negative targets. The grid is any strictly increasing sequence; rates
 are reals.
 */
module Thresholds {
  import opened Options
  import opened Curve
  import opened Rates

  // ----- Confusion counts -----

  /** Samples with the given label whose score is at or above (`flagged`) or below the threshold. */
  function Count(scores: seq<real>, labels: seq<int>, threshold: real, flagged: bool, truth: int): nat
    requires |scores| == |labels|
  {
    if scores == [] then 0
    else
      var n := |scores| - 1;
      Count(scores[..n], labels[..n], threshold, flagged, truth)
      + if (scores[n] >= threshold) == flagged && labels[n] == truth then 1 else 0
  }

  function CountLabel(labels: seq<int>, truth: int): nat {
    if labels == [] then 0
    else CountLabel(labels[..|labels| - 1], truth) + if labels[|labels| - 1] == truth then 1 else 0
  }

  /** The samples counted. */
  ghost function Samples(scores: seq<real>, labels: seq<int>, threshold: real, flagged: bool, truth: int): set<nat>
    requires |scores| == |labels|
  {
    set i: nat | i < |scores| && (flagged <==> threshold <= scores[i]) && labels[i] == truth
  }

  /** The count is the number of samples with the label at or above the threshold, or below it. */
  lemma {:induction false} CountIsSize(scores: seq<real>, labels: seq<int>, t: real, flagged: bool, truth: int)
    requires |scores| == |labels|
    ensures Count(scores, labels, t, flagged, truth) == |Samples(scores, labels, t, flagged, truth)|
  {
    if scores != [] {
      var n := |scores| - 1;
      CountIsSize(scores[..n], labels[..n], t, flagged, truth);
      var before := Samples(scores[..n], labels[..n], t, flagged, truth);
      assert Samples(scores, labels, t, flagged, truth)
          == if (flagged <==> t <= scores[n]) && labels[n] == truth then before + {n} else before;
    }
  }

  lemma {:induction false} CountsMonotone(scores: seq<real>, labels: seq<int>, t: real, u: real, truth: int)
    requires |scores| == |labels| && t <= u
    ensures Count(scores, labels, u, true, truth) <= Count(scores, labels, t, true, truth)
    ensures Count(scores, labels, t, false, truth) <= Count(scores, labels, u, false, truth)
  {
    if scores != [] {
      var n := |scores| - 1;
      CountsMonotone(scores[..n], labels[..n], t, u, truth);
    }
  }

  lemma {:induction false} CountsSum(scores: seq<real>, labels: seq<int>, t: real, truth: int)
    requires |scores| == |labels|
    ensures Count(scores, labels, t, true, truth) + Count(scores, labels, t, false, truth) == CountLabel(labels, truth)
  {
    if scores != [] {
      var n := |scores| - 1;
      CountsSum(scores[..n], labels[..n], t, truth);
    }
  }

  datatype Metrics = Metrics(threshold: real, tp: nat, tn: nat, fp: nat, fn: nat,
                             tpr: real, fpr: real, fnr: real, tnr: real, precision: real, f1: real)

  /** `compute_metrics_at_threshold`. */
  function MetricsAt(scores: seq<real>, labels: seq<int>, threshold: real): Metrics
    requires |scores| == |labels|
  {
    var tp := Count(scores, labels, threshold, true, 1);
    var tn := Count(scores, labels, threshold, false, 0);
    var fp := Count(scores, labels, threshold, true, 0);
    var fn := Count(scores, labels, threshold, false, 1);
    var positives, negatives := CountLabel(labels, 1), CountLabel(labels, 0);
    var tpr := Rate(tp, positives);
    var precision := Rate(tp, tp + fp);
    Metrics(threshold, tp, tn, fp, fn, tpr, Rate(fp, negatives), Rate(fn, positives), Rate(tn, negatives), precision,
            Harmonic(precision, tpr))
  }

  /** Raising the threshold never raises the true or false positive rate and never lowers the miss rate. */
  lemma RatesMonotone(scores: seq<real>, labels: seq<int>, t: real, u: real)
    requires |scores| == |labels| && t <= u
    ensures var a, b := MetricsAt(scores, labels, t), MetricsAt(scores, labels, u);
            b.tpr <= a.tpr && b.fpr <= a.fpr && a.fnr <= b.fnr
  {
    CountsMonotone(scores, labels, t, u, 1);
    CountsMonotone(scores, labels, t, u, 0);
    var a, b := MetricsAt(scores, labels, t), MetricsAt(scores, labels, u);
    RateMonotone(b.tp, a.tp, CountLabel(labels, 1));
    RateMonotone(b.fp, a.fp, CountLabel(labels, 0));
    RateMonotone(a.fn, b.fn, CountLabel(labels, 1));
  }

  lemma RatesBounded(scores: seq<real>, labels: seq<int>, t: real)
    requires |scores| == |labels|
    ensures var m := MetricsAt(scores, labels, t);
            0.0 <= m.tpr <= 1.0 && 0.0 <= m.fpr <= 1.0 && 0.0 <= m.fnr <= 1.0
  {
    CountsSum(scores, labels, t, 1);
    CountsSum(scores, labels, t, 0);
    var m := MetricsAt(scores, labels, t);
    RateBounds(m.tp, CountLabel(labels, 1));
    RateBounds(m.fp, CountLabel(labels, 0));
    RateBounds(m.fn, CountLabel(labels, 1));
  }

  /** The counts share out the labels, each rate and its complement add up to one, and F1 comes from the counts alone. */
  lemma MetricsIdentities(scores: seq<real>, labels: seq<int>, t: real)
    requires |scores| == |labels|
    ensures var m := MetricsAt(scores, labels, t);
            && m.tp + m.fn == CountLabel(labels, 1) && m.fp + m.tn == CountLabel(labels, 0)
            && (m.tp + m.fn > 0 ==> m.tpr + m.fnr == 1.0) && (m.fp + m.tn > 0 ==> m.fpr + m.tnr == 1.0)
            && m.tp == |Samples(scores, labels, t, true, 1)| && m.fp == |Samples(scores, labels, t, true, 0)|
            && m.fn == |Samples(scores, labels, t, false, 1)| && m.tn == |Samples(scores, labels, t, false, 0)|
            && m.f1 == CountsF1(m.tp, m.fp, m.fn) && IsRate(m.precision, m.tp, m.tp + m.fp)
            && IsRate(m.tpr, m.tp, m.tp + m.fn) && IsRate(m.fnr, m.fn, m.tp + m.fn)
            && IsRate(m.fpr, m.fp, m.fp + m.tn) && IsRate(m.tnr, m.tn, m.fp + m.tn)
  {
    CountsSum(scores, labels, t, 1);
    CountsSum(scores, labels, t, 0);
    var m := MetricsAt(scores, labels, t);
    CountIsSize(scores, labels, t, true, 1);
    CountIsSize(scores, labels, t, true, 0);
    CountIsSize(scores, labels, t, false, 1);
    CountIsSize(scores, labels, t, false, 0);
    RateIs(m.tp, m.tp + m.fp);
    RateIs(m.tp, m.tp + m.fn);
    RateIs(m.fn, m.tp + m.fn);
    RateIs(m.fp, m.fp + m.tn);
    RateIs(m.tn, m.fp + m.tn);
    RatesAddUp(m.tp, m.fn);
    RatesAddUp(m.fp, m.tn);
    HarmonicIsF1(m.tp, m.fp, m.fn);
  }

  // ----- Selection -----

  ghost predicate IsFirstMax(xs: seq<real>, k: nat) {
    && k < |xs|
    && (forall j :: 0 <= j < |xs| ==> xs[j] <= xs[k])
    && (forall j :: 0 <= j < k ==> xs[j] < xs[k])
  }

  /** `np.argmax`. */
  method ArgMax(xs: seq<real>) returns (k: nat)
    requires xs != []
    ensures IsFirstMax(xs, k)
  {
    k := 0;
    for j := 1 to |xs|
      invariant IsFirstMax(xs[..j], k)
    {
      if xs[j] > xs[k] {
        k := j;
      }
    }
    assert xs[..|xs|] == xs;
  }

  /** `np.where(flags)[0]`. */
  method Where(flags: seq<bool>) returns (idx: seq<nat>)
    ensures forall a :: 0 <= a < |idx| ==> idx[a] < |flags| && flags[idx[a]]
    ensures forall a, b :: 0 <= a < b < |idx| ==> idx[a] < idx[b]
    ensures forall i: nat :: i < |flags| && flags[i] ==> i in idx
  {
    idx := [];
    for i := 0 to |flags|
      invariant forall a :: 0 <= a < |idx| ==> idx[a] < i && flags[idx[a]]
      invariant forall a, b :: 0 <= a < b < |idx| ==> idx[a] < idx[b]
      invariant forall j: nat :: j < i && flags[j] ==> j in idx
    {
      if flags[i] {
        idx := idx + [i];
      }
    }
  }

  /** Among the entries allowed by `flags`, the first with the greatest key. */
  method Select(flags: seq<bool>, keys: seq<real>) returns (r: Option<nat>)
    requires |flags| == |keys|
    ensures r.None? <==> forall i :: 0 <= i < |flags| ==> !flags[i]
    ensures r.Some? ==> IsSelected(flags, keys, r.value)
  {
    var idx := Where(flags);
    if idx == [] {
      return None;
    }
    var allowed := seq(|idx|, a requires 0 <= a < |idx| => keys[idx[a]]);
    var k := ArgMax(allowed);
    forall i | 0 <= i < |flags| && flags[i] ensures keys[i] <= keys[idx[k]] && (i < idx[k] ==> keys[i] < keys[idx[k]]) {
      var a :| 0 <= a < |idx| && idx[a] == i;
      assert allowed[a] == keys[i] && allowed[k] == keys[idx[k]];
      assert i < idx[k] ==> a < k;
    }
    return Some(idx[k]);
  }

  ghost predicate IsSelected(flags: seq<bool>, keys: seq<real>, k: nat)
    requires |flags| == |keys|
  {
    && k < |flags| && flags[k]
    && forall i :: 0 <= i < |flags| && flags[i] ==> keys[i] <= keys[k] && (i < k ==> keys[i] < keys[k])
  }

  ghost predicate Increasing(grid: seq<real>) {
    forall i, j :: 0 <= i < j < |grid| ==> grid[i] < grid[j]
  }

  lemma SameOrder(grid: seq<real>, i: nat, j: nat)
    requires Increasing(grid) && i < |grid| && j < |grid|
    ensures grid[i] < grid[j] <==> i < j
  {
  }

  ghost predicate Sweep(scores: seq<real>, labels: seq<int>, grid: seq<real>, results: seq<Metrics>)
    requires |scores| == |labels|
  {
    |results| == |grid| && forall i :: 0 <= i < |grid| ==> results[i] == MetricsAt(scores, labels, grid[i])
  }

  /** The least grid threshold whose false-positive rate meets the target; none if no threshold meets it. */
  ghost predicate LeastMeetingFpr(scores: seq<real>, labels: seq<int>, grid: seq<real>, target: real, r: Option<Metrics>)
    requires |scores| == |labels|
  {
    if r.None? then forall t :: t in grid ==> MetricsAt(scores, labels, t).fpr > target
    else
      && r.value.threshold in grid && r.value == MetricsAt(scores, labels, r.value.threshold)
      && r.value.fpr <= target
      && forall t :: t in grid && t < r.value.threshold ==> MetricsAt(scores, labels, t).fpr > target
  }

  ghost predicate GreatestMeetingFnr(scores: seq<real>, labels: seq<int>, grid: seq<real>, target: real, t: real)
    requires |scores| == |labels|
  {
    && t in grid && MetricsAt(scores, labels, t).fnr <= target
    && forall u :: u in grid && MetricsAt(scores, labels, u).fnr <= target ==> u <= t
  }

  /** A grid threshold that meets the miss-rate target at the false-positive rate of the greatest one that does,
      and the least such; none if no threshold meets the target. */
  ghost predicate CheapestMeetingFnr(scores: seq<real>, labels: seq<int>, grid: seq<real>, target: real, r: Option<Metrics>)
    requires |scores| == |labels|
  {
    if r.None? then forall t :: t in grid ==> MetricsAt(scores, labels, t).fnr > target
    else
      && r.value.threshold in grid && r.value == MetricsAt(scores, labels, r.value.threshold)
      && r.value.fnr <= target
      && (exists t :: GreatestMeetingFnr(scores, labels, grid, target, t) && MetricsAt(scores, labels, t).fpr == r.value.fpr)
      && (forall t :: t in grid && t < r.value.threshold ==> MetricsAt(scores, labels, t).fpr > r.value.fpr)
  }

  lemma {:induction false} GreatestExists(scores: seq<real>, labels: seq<int>, grid: seq<real>, target: real, k: nat)
    returns (t: real)
    requires |scores| == |labels| && Increasing(grid)
    requires k < |grid| && MetricsAt(scores, labels, grid[k]).fnr <= target
    ensures GreatestMeetingFnr(scores, labels, grid, target, t) && grid[k] <= t
  {
    var n := |grid| - 1;
    if MetricsAt(scores, labels, grid[n]).fnr <= target {
      t := grid[n];
    } else {
      t := GreatestExists(scores, labels, grid[..n], target, k);
    }
  }

  method PickAtFpr(ghost scores: seq<real>, ghost labels: seq<int>, grid: seq<real>, results: seq<Metrics>, target: real)
    returns (r: Option<Metrics>)
    requires |scores| == |labels| && Increasing(grid) && Sweep(scores, labels, grid, results)
    ensures LeastMeetingFpr(scores, labels, grid, target, r)
  {
    var flags := seq(|results|, i requires 0 <= i < |results| => results[i].fpr <= target);
    var keys := seq(|results|, i requires 0 <= i < |results| => results[i].tpr);
    var k := Select(flags, keys);
    if k.None? {
      r := None;
      forall t | t in grid ensures MetricsAt(scores, labels, t).fpr > target {
        var i :| 0 <= i < |grid| && grid[i] == t;
        assert !flags[i];
      }
    } else {
      r := Some(results[k.value]);
      assert results[k.value].threshold == grid[k.value];
      forall t | t in grid && t < r.value.threshold ensures MetricsAt(scores, labels, t).fpr > target {
        var i :| 0 <= i < |grid| && grid[i] == t;
        RatesMonotone(scores, labels, t, r.value.threshold);
        SameOrder(grid, i, k.value);
        assert !flags[i];
      }
    }
  }

  method PickAtFnr(ghost scores: seq<real>, ghost labels: seq<int>, grid: seq<real>, results: seq<Metrics>, target: real)
    returns (r: Option<Metrics>)
    requires |scores| == |labels| && Increasing(grid) && Sweep(scores, labels, grid, results)
    ensures CheapestMeetingFnr(scores, labels, grid, target, r)
  {
    var flags := seq(|results|, i requires 0 <= i < |results| => results[i].fnr <= target);
    var keys := seq(|results|, i requires 0 <= i < |results| => -results[i].fpr);
    var k := Select(flags, keys);
    if k.None? {
      r := None;
      forall t | t in grid ensures MetricsAt(scores, labels, t).fnr > target {
        var i :| 0 <= i < |grid| && grid[i] == t;
        assert !flags[i];
      }
    } else {
      var chosen := results[k.value];
      r := Some(chosen);
      assert chosen.threshold == grid[k.value];
      ghost var last := GreatestExists(scores, labels, grid, target, k.value);
      ghost var at :| 0 <= at < |grid| && grid[at] == last;
      assert flags[at];
      RatesMonotone(scores, labels, chosen.threshold, last);
      forall t | t in grid && t < chosen.threshold ensures MetricsAt(scores, labels, t).fpr > chosen.fpr {
        var i :| 0 <= i < |grid| && grid[i] == t;
        RatesMonotone(scores, labels, t, chosen.threshold);
        SameOrder(grid, i, k.value);
        assert flags[i];
      }
    }
  }

  /** Youden's J at each threshold. */
  function Gains(results: seq<Metrics>): seq<real> {
    seq(|results|, i requires 0 <= i < |results| => results[i].tpr - results[i].fpr)
  }

  function F1s(results: seq<Metrics>): seq<real> {
    seq(|results|, i requires 0 <= i < |results| => results[i].f1)
  }

  /** The result at the lowest threshold among those where the true rate exceeds the false one most. */
  ghost predicate IsYouden(results: seq<Metrics>, best: Metrics) {
    exists k: nat :: k < |results| && results[k] == best &&
      forall j :: 0 <= j < |results| ==>
        && results[j].tpr - results[j].fpr <= best.tpr - best.fpr
        && (j < k ==> results[j].tpr - results[j].fpr < best.tpr - best.fpr)
  }

  /** The result at the lowest threshold among those of the greatest F1. */
  ghost predicate IsBestF1(results: seq<Metrics>, best: Metrics) {
    exists k: nat :: k < |results| && results[k] == best &&
      forall j :: 0 <= j < |results| ==> results[j].f1 <= best.f1 && (j < k ==> results[j].f1 < best.f1)
  }

  lemma FirstMaxima(results: seq<Metrics>, y: nat, f: nat)
    requires IsFirstMax(Gains(results), y) && IsFirstMax(F1s(results), f)
    ensures y < |results| && f < |results| && IsYouden(results, results[y]) && IsBestF1(results, results[f])
  {
    var gains, f1s := Gains(results), F1s(results);
    forall j | 0 <= j < |results|
      ensures results[j].tpr - results[j].fpr <= results[y].tpr - results[y].fpr && results[j].f1 <= results[f].f1
      ensures j < y ==> results[j].tpr - results[j].fpr < results[y].tpr - results[y].fpr
      ensures j < f ==> results[j].f1 < results[f].f1
    {
      assert gains[j] <= gains[y] && f1s[j] <= f1s[f];
    }
  }

  function Tprs(results: seq<Metrics>): (r: seq<real>)
    ensures |r| == |results| && forall i :: 0 <= i < |results| ==> r[i] == results[i].tpr
  {
    seq(|results|, i requires 0 <= i < |results| => results[i].tpr)
  }

  function Fprs(results: seq<Metrics>): (r: seq<real>)
    ensures |r| == |results| && forall i :: 0 <= i < |results| ==> r[i] == results[i].fpr
  {
    seq(|results|, i requires 0 <= i < |results| => results[i].fpr)
  }

  lemma SweepInUnit(scores: seq<real>, labels: seq<int>, grid: seq<real>, results: seq<Metrics>)
    requires |scores| == |labels| && Sweep(scores, labels, grid, results)
    ensures InUnit(Tprs(results)) && InUnit(Fprs(results))
  {
    forall i | 0 <= i < |grid| ensures 0.0 <= results[i].tpr <= 1.0 && 0.0 <= results[i].fpr <= 1.0 {
      RatesBounded(scores, labels, grid[i]);
    }
  }

  datatype Report = Report(results: seq<Metrics>, auc: real, youden: Metrics, bestF1: Metrics,
                           atFpr: seq<Option<Metrics>>, atFnr: seq<Option<Metrics>>)

  /** `find_optimal_thresholds`. */
  method FindOptimalThresholds(scores: seq<real>, labels: seq<int>, grid: seq<real>, targetFprs: seq<real>, targetFnrs: seq<real>)
    returns (r: Report)
    requires |scores| == |labels| && Increasing(grid) && grid != []
    ensures Sweep(scores, labels, grid, r.results)
    ensures IsAuc(Tprs(r.results), Fprs(r.results), r.auc) && 0.0 <= r.auc <= 1.0
    ensures IsYouden(r.results, r.youden) && IsBestF1(r.results, r.bestF1)
    ensures |r.atFpr| == |targetFprs| && forall i :: 0 <= i < |targetFprs| ==>
              LeastMeetingFpr(scores, labels, grid, targetFprs[i], r.atFpr[i])
    ensures |r.atFnr| == |targetFnrs| && forall i :: 0 <= i < |targetFnrs| ==>
              CheapestMeetingFnr(scores, labels, grid, targetFnrs[i], r.atFnr[i])
  {
    var results := [];
    for i := 0 to |grid|
      invariant Sweep(scores, labels, grid[..i], results)
    {
      results := results + [MetricsAt(scores, labels, grid[i])];
    }
    assert grid[..|grid|] == grid;
    var auc := Auc(Tprs(results), Fprs(results));
    SweepInUnit(scores, labels, grid, results);
    AucBounded(Tprs(results), Fprs(results), auc);
    var y := ArgMax(Gains(results));
    var f := ArgMax(F1s(results));
    FirstMaxima(results, y, f);
    var atFpr := [];
    for i := 0 to |targetFprs|
      invariant |atFpr| == i
      invariant forall j :: 0 <= j < i ==> LeastMeetingFpr(scores, labels, grid, targetFprs[j], atFpr[j])
    {
      var m := PickAtFpr(scores, labels, grid, results, targetFprs[i]);
      atFpr := atFpr + [m];
    }
    var atFnr := [];
    for i := 0 to |targetFnrs|
      invariant |atFnr| == i
      invariant forall j :: 0 <= j < i ==> CheapestMeetingFnr(scores, labels, grid, targetFnrs[j], atFnr[j])
    {
      var m := PickAtFnr(scores, labels, grid, results, targetFnrs[i]);
      atFnr := atFnr + [m];
    }
    r := Report(results, auc, results[y], results[f], atFpr, atFnr);
  }
}
