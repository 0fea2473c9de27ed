/**
 The first calibration script's ROC curve. It sweeps the same rates as `Thresholds` does, but for a
 false-positive target it takes the grid threshold whose rate is nearest, on either side.
 */
module RocCurve {
  import opened Curve
  import opened Options
  import opened Rates
  import opened Thresholds

  /** The three lists of rates over the grid. */
  datatype Rows = Rows(tpr: seq<real>, fpr: seq<real>, fnr: seq<real>)

  ghost predicate IsCurve(scores: seq<real>, labels: seq<int>, grid: seq<real>, c: Rows)
    requires |scores| == |labels|
  {
    && |c.tpr| == |c.fpr| == |c.fnr| == |grid|
    && forall i :: 0 <= i < |grid| ==>
         var m := MetricsAt(scores, labels, grid[i]);
         c.tpr[i] == m.tpr && c.fpr[i] == m.fpr && c.fnr[i] == m.fnr
  }

  function Differences(xs: seq<real>, ys: seq<real>): seq<real>
    requires |xs| == |ys|
  {
    seq(|xs|, i requires 0 <= i < |xs| => xs[i] - ys[i])
  }

  function Distance(rate: real, target: real): real {
    if rate >= target then rate - target else target - rate
  }

  function Closeness(rates: seq<real>, target: real): seq<real> {
    seq(|rates|, i requires 0 <= i < |rates| => -Distance(rates[i], target))
  }

  /** The first rate that is nearest to the target. */
  ghost predicate IsNearest(rates: seq<real>, target: real, k: nat) {
    k < |rates| && IsFirstMax(Closeness(rates, target), k)
  }

  /** Some rate above the target is at least as near to it as every rate that meets it. */
  ghost predicate Overshoots(scores: seq<real>, labels: seq<int>, grid: seq<real>, target: real)
    requires |scores| == |labels|
  {
    exists t :: t in grid && MetricsAt(scores, labels, t).fpr > target &&
      forall u :: u in grid && MetricsAt(scores, labels, u).fpr <= target ==>
        MetricsAt(scores, labels, t).fpr - target <= target - MetricsAt(scores, labels, u).fpr
  }

  lemma NearestIsNearest(rates: seq<real>, target: real, k: nat, i: nat)
    requires IsNearest(rates, target, k) && i < |rates|
    ensures Distance(rates[k], target) <= Distance(rates[i], target)
    ensures i < k ==> Distance(rates[k], target) < Distance(rates[i], target)
  {
    var c := Closeness(rates, target);
    assert c[i] == -Distance(rates[i], target) && c[k] == -Distance(rates[k], target);
  }

  /** A higher rate stands at a lower threshold, so earlier. */
  lemma HigherIsEarlier(scores: seq<real>, labels: seq<int>, grid: seq<real>, i: nat, j: nat)
    requires |scores| == |labels| && Increasing(grid) && i < |grid| && j < |grid|
    requires MetricsAt(scores, labels, grid[i]).fpr > MetricsAt(scores, labels, grid[j]).fpr
    ensures i < j
  {
    if j < i {
      RatesMonotone(scores, labels, grid[j], grid[i]);
    }
  }

  /** The threshold chosen for a false-positive target exceeds the target exactly when the rates overshoot it. */
  lemma NearestExceedsExactly(scores: seq<real>, labels: seq<int>, grid: seq<real>, c: Rows, target: real, k: nat)
    requires |scores| == |labels| && Increasing(grid) && IsCurve(scores, labels, grid, c) && IsNearest(c.fpr, target, k)
    ensures c.fpr[k] > target <==> Overshoots(scores, labels, grid, target)
  {
    if c.fpr[k] > target {
      forall u | u in grid && MetricsAt(scores, labels, u).fpr <= target
        ensures c.fpr[k] - target <= target - MetricsAt(scores, labels, u).fpr
      {
        var i :| 0 <= i < |grid| && grid[i] == u;
        NearestIsNearest(c.fpr, target, k, i);
      }
      assert grid[k] in grid;
    }
    if Overshoots(scores, labels, grid, target) && c.fpr[k] <= target {
      var t :| t in grid && MetricsAt(scores, labels, t).fpr > target &&
        forall u :: u in grid && MetricsAt(scores, labels, u).fpr <= target ==>
          MetricsAt(scores, labels, t).fpr - target <= target - MetricsAt(scores, labels, u).fpr;
      var i :| 0 <= i < |grid| && grid[i] == t;
      assert grid[k] in grid;
      HigherIsEarlier(scores, labels, grid, i, k);
      NearestIsNearest(c.fpr, target, k, i);
    }
  }

  /** The two scripts choose the same threshold for a target exactly when this one's choice meets it. */
  lemma ScriptsAgreeExactly(scores: seq<real>, labels: seq<int>, grid: seq<real>, c: Rows, target: real, k: nat)
    requires |scores| == |labels| && Increasing(grid) && IsCurve(scores, labels, grid, c) && IsNearest(c.fpr, target, k)
    ensures LeastMeetingFpr(scores, labels, grid, target, Some(MetricsAt(scores, labels, grid[k])))
            <==> !Overshoots(scores, labels, grid, target)
  {
    NearestExceedsExactly(scores, labels, grid, c, target, k);
    var m := MetricsAt(scores, labels, grid[k]);
    assert m.threshold == grid[k] && m.fpr == c.fpr[k];
    if c.fpr[k] <= target {
      forall t | t in grid && t < grid[k] ensures MetricsAt(scores, labels, t).fpr > target {
        var i :| 0 <= i < |grid| && grid[i] == t;
        SameOrder(grid, i, k);
        RatesMonotone(scores, labels, t, grid[k]);
        NearestIsNearest(c.fpr, target, k, i);
      }
    }
  }

  function Zeros(n: nat): seq<real> {
    seq(n, i => 0.0)
  }

  function Clean(n: nat): seq<int> {
    seq(n, i => 0)
  }

  lemma {:induction false} ZerosCount(n: nat, t: real)
    ensures Count(Zeros(n), Clean(n), t, true, 0) == (if t <= 0.0 then n else 0) && CountLabel(Clean(n), 0) == n
  {
    if n > 0 {
      assert Zeros(n)[..n - 1] == Zeros(n - 1) && Clean(n)[..n - 1] == Clean(n - 1);
      ZerosCount(n - 1, t);
    }
  }

  /** Eight clean samples, one scored 0.5 and the others 0: at 0.5 the rate is 1/8, at 1 it is 0, and the 10% target of
      the script gets the threshold 0.5 with its 12.5%. */
  lemma OvershootExample()
    ensures Overshoots(Zeros(7) + [0.5], Clean(8), [0.0, 0.5, 1.0], 0.1)
  {
    var scores, labels, grid := Zeros(7) + [0.5], Clean(8), [0.0, 0.5, 1.0];
    assert scores[..7] == Zeros(7) && labels[..7] == Clean(7);
    forall t ensures MetricsAt(scores, labels, t).fpr
                     == ((if t <= 0.0 then 7 else 0) + (if t <= 0.5 then 1 else 0)) as real / 8.0 {
      ZerosCount(7, t);
    }
    assert MetricsAt(scores, labels, 0.0).fpr == 1.0;
    assert MetricsAt(scores, labels, 0.5).fpr == 0.125;
    assert MetricsAt(scores, labels, 1.0).fpr == 0.0;
    assert grid[1] in grid;
  }

  /** A choice of threshold with its rates. */
  datatype Point = Point(threshold: real, tpr: real, fpr: real, fnr: real)

  function PointAt(grid: seq<real>, c: Rows, k: nat): Point
    requires k < |grid| == |c.tpr| == |c.fpr| == |c.fnr|
  {
    Point(grid[k], c.tpr[k], c.fpr[k], c.fnr[k])
  }

  /** The point is the grid's `k`-th threshold with the rates there. */
  ghost predicate IsPoint(grid: seq<real>, c: Rows, k: nat, p: Point)
    requires k < |grid| == |c.tpr| == |c.fpr| == |c.fnr|
  {
    p.threshold == grid[k] && p.tpr == c.tpr[k] && p.fpr == c.fpr[k] && p.fnr == c.fnr[k]
  }

  datatype Roc = Roc(rows: Rows, auc: real, youden: Point, atFpr: seq<Point>)

  /** The sweep of the curve; its rates divide by the counts instead of the label totals. */
  method SweepCurve(scores: seq<real>, labels: seq<int>, grid: seq<real>) returns (c: Rows)
    requires |scores| == |labels|
    ensures IsCurve(scores, labels, grid, c)
  {
    c := Rows([], [], []);
    for i := 0 to |grid|
      invariant IsCurve(scores, labels, grid[..i], c)
    {
      var tp := Count(scores, labels, grid[i], true, 1);
      var tn := Count(scores, labels, grid[i], false, 0);
      var fp := Count(scores, labels, grid[i], true, 0);
      var fn := Count(scores, labels, grid[i], false, 1);
      CountsSum(scores, labels, grid[i], 1);
      CountsSum(scores, labels, grid[i], 0);
      c := Rows(c.tpr + [Rate(tp, tp + fn)], c.fpr + [Rate(fp, fp + tn)], c.fnr + [Rate(fn, fn + tp)]);
    }
    assert grid[..|grid|] == grid;
  }

  ghost predicate IsChoice(grid: seq<real>, c: Rows, target: real, p: Point)
    requires |grid| == |c.tpr| == |c.fpr| == |c.fnr|
  {
    exists k: nat :: IsNearest(c.fpr, target, k) && IsPoint(grid, c, k, p)
  }

  /** The first threshold at which the true rate exceeds the false one most. */
  ghost predicate IsYoudenAt(grid: seq<real>, c: Rows, k: nat)
    requires |grid| == |c.tpr| == |c.fpr| == |c.fnr|
  {
    k < |grid| && forall j :: 0 <= j < |grid| ==>
      c.tpr[j] - c.fpr[j] <= c.tpr[k] - c.fpr[k] && (j < k ==> c.tpr[j] - c.fpr[j] < c.tpr[k] - c.fpr[k])
  }

  lemma YoudenAt(grid: seq<real>, c: Rows, k: nat)
    requires |grid| == |c.tpr| == |c.fpr| == |c.fnr| && IsFirstMax(Differences(c.tpr, c.fpr), k)
    ensures IsYoudenAt(grid, c, k)
  {
    var d := Differences(c.tpr, c.fpr);
    assert forall j :: 0 <= j < |grid| ==> d[j] == c.tpr[j] - c.fpr[j];
  }

  /** `compute_roc_curve`. */
  method ComputeRocCurve(scores: seq<real>, labels: seq<int>, grid: seq<real>, targets: seq<real>) returns (r: Roc)
    requires |scores| == |labels| && Increasing(grid) && grid != []
    ensures IsCurve(scores, labels, grid, r.rows)
    ensures IsAuc(r.rows.tpr, r.rows.fpr, r.auc) && 0.0 <= r.auc <= 1.0
    ensures exists k: nat :: IsYoudenAt(grid, r.rows, k) && IsPoint(grid, r.rows, k, r.youden)
    ensures |r.atFpr| == |targets| && forall i :: 0 <= i < |targets| ==> IsChoice(grid, r.rows, targets[i], r.atFpr[i])
  {
    var c := SweepCurve(scores, labels, grid);
    var y := ArgMax(Differences(c.tpr, c.fpr));
    YoudenAt(grid, c, y);
    var atFpr := [];
    for i := 0 to |targets|
      invariant |atFpr| == i
      invariant forall j :: 0 <= j < i ==> IsChoice(grid, c, targets[j], atFpr[j])
    {
      var k := ArgMax(Closeness(c.fpr, targets[i]));
      assert IsNearest(c.fpr, targets[i], k);
      assert IsPoint(grid, c, k, PointAt(grid, c, k));
      atFpr := atFpr + [PointAt(grid, c, k)];
    }
    var auc := Auc(c.tpr, c.fpr);
    CurveInUnit(scores, labels, grid, c);
    AucBounded(c.tpr, c.fpr, auc);
    assert IsPoint(grid, c, y, PointAt(grid, c, y));
    r := Roc(c, auc, PointAt(grid, c, y), atFpr);
  }

  lemma CurveInUnit(scores: seq<real>, labels: seq<int>, grid: seq<real>, c: Rows)
    requires |scores| == |labels| && IsCurve(scores, labels, grid, c)
    ensures InUnit(c.tpr) && InUnit(c.fpr)
  {
    forall i | 0 <= i < |grid| ensures 0.0 <= c.tpr[i] <= 1.0 && 0.0 <= c.fpr[i] <= 1.0 {
      RatesBounded(scores, labels, grid[i]);
    }
  }
}
