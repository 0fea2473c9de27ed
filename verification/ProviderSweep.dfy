/**
 The provider calibration sweep: the threshold with the best F1 score, the confusion matrix at a
 threshold, and the provider weights derived from accuracy and F1.
 */
module ProviderSweep {
  import opened Rates
  import opened Sequences

  datatype Matrix = Matrix(tp: nat, fp: nat, tn: nat, fn: nat)

  predicate IsMalicious(truth: string) {
    truth == "malicious"
  }

  function Min(a: nat, b: nat): nat {
    if a <= b then a else b
  }

  /** Over the first `n` score and label pairs, those flagged or not and malicious or not. */
  function Tally(scores: seq<real>, labels: seq<string>, threshold: real, n: nat, flagged: bool, malicious: bool): nat
    requires n <= |scores| && n <= |labels|
  {
    if n == 0 then 0
    else Tally(scores, labels, threshold, n - 1, flagged, malicious)
         + if (scores[n - 1] >= threshold) == flagged && IsMalicious(labels[n - 1]) == malicious then 1 else 0
  }

  /** Pair `i` is flagged or not, and malicious or not, as asked. */
  ghost predicate Hit(scores: seq<real>, labels: seq<string>, threshold: real, i: nat, flagged: bool, malicious: bool)
    requires i < |scores| && i < |labels|
  {
    (flagged <==> threshold <= scores[i]) && (malicious <==> IsMalicious(labels[i]))
  }

  /** The pairs counted. */
  ghost function Pairs(scores: seq<real>, labels: seq<string>, threshold: real, n: nat, flagged: bool, malicious: bool): set<nat>
    requires n <= |scores| && n <= |labels|
  {
    set i: nat | i < n && Hit(scores, labels, threshold, i, flagged, malicious)
  }

  /** The tally is the number of pairs flagged or not, malicious or not. */
  lemma {:induction false} TallyIsSize(scores: seq<real>, labels: seq<string>, t: real, n: nat, flagged: bool, malicious: bool)
    requires n <= |scores| && n <= |labels|
    ensures Tally(scores, labels, t, n, flagged, malicious) == |Pairs(scores, labels, t, n, flagged, malicious)|
  {
    if n > 0 {
      TallyIsSize(scores, labels, t, n - 1, flagged, malicious);
      var before := Pairs(scores, labels, t, n - 1, flagged, malicious);
      var after := Pairs(scores, labels, t, n, flagged, malicious);
      if Hit(scores, labels, t, n - 1, flagged, malicious) {
        assert after == before + {n - 1};
      } else {
        assert after == before;
      }
    }
  }

  function MatrixAt(scores: seq<real>, labels: seq<string>, threshold: real): Matrix {
    var n := Min(|scores|, |labels|);
    Matrix(Tally(scores, labels, threshold, n, true, true), Tally(scores, labels, threshold, n, true, false),
           Tally(scores, labels, threshold, n, false, false), Tally(scores, labels, threshold, n, false, true))
  }

  /** `compute_confusion_matrix`; pairs past the shorter list are ignored. */
  method ConfusionMatrix(scores: seq<real>, labels: seq<string>, threshold: real) returns (m: Matrix)
    ensures m == MatrixAt(scores, labels, threshold)
    ensures var n := Min(|scores|, |labels|);
            && m.tp == |Pairs(scores, labels, threshold, n, true, true)| && m.fp == |Pairs(scores, labels, threshold, n, true, false)|
            && m.tn == |Pairs(scores, labels, threshold, n, false, false)| && m.fn == |Pairs(scores, labels, threshold, n, false, true)|
    ensures m.tp + m.fp + m.tn + m.fn == Min(|scores|, |labels|)
  {
    var tp, fp, tn, fn := 0, 0, 0, 0;
    for i := 0 to Min(|scores|, |labels|)
      invariant tp == Tally(scores, labels, threshold, i, true, true)
      invariant fp == Tally(scores, labels, threshold, i, true, false)
      invariant tn == Tally(scores, labels, threshold, i, false, false)
      invariant fn == Tally(scores, labels, threshold, i, false, true)
      invariant tp + fp + tn + fn == i
    {
      var flagged, malicious := scores[i] >= threshold, IsMalicious(labels[i]);
      if flagged && malicious {
        tp := tp + 1;
      } else if flagged && !malicious {
        fp := fp + 1;
      } else if !flagged && malicious {
        fn := fn + 1;
      } else {
        tn := tn + 1;
      }
    }
    m := Matrix(tp, fp, tn, fn);
    TallyIsSize(scores, labels, threshold, Min(|scores|, |labels|), true, true);
    TallyIsSize(scores, labels, threshold, Min(|scores|, |labels|), true, false);
    TallyIsSize(scores, labels, threshold, Min(|scores|, |labels|), false, false);
    TallyIsSize(scores, labels, threshold, Min(|scores|, |labels|), false, true);
  }

  function Precision(m: Matrix): real { Rate(m.tp, m.tp + m.fp) }
  function Recall(m: Matrix): real { Rate(m.tp, m.tp + m.fn) }

  function F1(m: Matrix): real { CountsF1(m.tp, m.fp, m.fn) }

  datatype Best = Best(threshold: real, precision: real, recall: real, f1: real, accuracy: real)

  const NO_THRESHOLD := Best(0.5, 0.0, 0.0, 0.0, 0.0)

  function BestAt(scores: seq<real>, labels: seq<string>, threshold: real): Best {
    var m := MatrixAt(scores, labels, threshold);
    Best(threshold, Precision(m), Recall(m), F1(m), Rate(m.tp + m.tn, |scores|))
  }

  /** The first of the first `n` grid thresholds with the greatest F1, if any is positive; the default otherwise. */
  ghost predicate IsBest(scores: seq<real>, labels: seq<string>, grid: seq<real>, n: nat, best: Best)
    requires n <= |grid|
  {
    || (best == Best(0.5, 0.0, 0.0, 0.0, 0.0) && forall i :: 0 <= i < n ==> F1(MatrixAt(scores, labels, grid[i])) <= 0.0)
    || exists k :: 0 <= k < n && best == BestAt(scores, labels, grid[k]) && best.f1 > 0.0
                   && (forall i :: 0 <= i < n ==> F1(MatrixAt(scores, labels, grid[i])) <= best.f1)
                   && (forall i :: 0 <= i < k ==> F1(MatrixAt(scores, labels, grid[i])) < best.f1)
  }

  lemma NothingToScore(scores: seq<real>, labels: seq<string>, threshold: real)
    requires scores == [] || labels == []
    ensures F1(MatrixAt(scores, labels, threshold)) == 0.0
  {
  }

  /** `compute_optimal_threshold`. */
  method OptimalThreshold(scores: seq<real>, labels: seq<string>, grid: seq<real>) returns (best: Best)
    ensures IsBest(scores, labels, grid, |grid|, best)
  {
    best := NO_THRESHOLD;
    if scores == [] || labels == [] {
      forall i | 0 <= i < |grid| ensures F1(MatrixAt(scores, labels, grid[i])) <= 0.0 {
        NothingToScore(scores, labels, grid[i]);
      }
      return;
    }
    for i := 0 to |grid|
      invariant IsBest(scores, labels, grid, i, best)
    {
      var m := ConfusionMatrix(scores, labels, grid[i]);
      HarmonicIsF1(m.tp, m.fp, m.fn);
      var f1 := Harmonic(Precision(m), Recall(m));
      if f1 > best.f1 {
        best := Best(grid[i], Precision(m), Recall(m), f1, Rate(m.tp + m.tn, |scores|));
        assert best == BestAt(scores, labels, grid[i]);
      }
    }
  }

  /** The confusion matrix recomputed at the returned threshold reproduces the returned figures. */
  lemma MatrixReproduces(scores: seq<real>, labels: seq<string>, grid: seq<real>, best: Best)
    requires IsBest(scores, labels, grid, |grid|, best) && best.f1 > 0.0
    ensures var m := MatrixAt(scores, labels, best.threshold);
            && best.threshold in grid
            && best.precision == Precision(m) && best.recall == Recall(m)
            && best.f1 == Harmonic(best.precision, best.recall)
            && best.f1 == (2 * m.tp) as real / (2 * m.tp + m.fp + m.fn) as real
            && IsRate(best.precision, m.tp, m.tp + m.fp) && IsRate(best.recall, m.tp, m.tp + m.fn)
            && IsRate(best.accuracy, m.tp + m.tn, |scores|)
  {
    var m := MatrixAt(scores, labels, best.threshold);
    HarmonicIsF1(m.tp, m.fp, m.fn);
    RateIs(m.tp, m.tp + m.fp);
    RateIs(m.tp, m.tp + m.fn);
    RateIs(m.tp + m.tn, |scores|);
  }

  // ----- Weights -----

  function Scaled(ws: seq<real>, total: real): (r: seq<real>)
    requires total != 0.0
    ensures |r| == |ws| && forall i :: 0 <= i < |ws| ==> r[i] == ws[i] / total
  {
    seq(|ws|, i requires 0 <= i < |ws| => ws[i] / total)
  }

  lemma {:induction false} SumScaled(ws: seq<real>, total: real)
    requires total != 0.0
    ensures Sum(Scaled(ws, total)) == Sum(ws) / total
  {
    if ws != [] {
      var n := |ws| - 1;
      SumScaled(ws[..n], total);
      assert Scaled(ws, total)[..n] == Scaled(ws[..n], total);
      assert Sum(ws[..n]) / total + ws[n] / total == (Sum(ws[..n]) + ws[n]) / total;
    }
  }

  lemma SelfRatio(x: real)
    requires x > 0.0
    ensures x / x == 1.0
  {
  }

  function RawWeight(accuracy: real, f1: real): real {
    0.3 * accuracy + 0.7 * f1
  }

  /** Seven parts F1 to three parts accuracy. */
  lemma SevenToThree(accuracy: real, f1: real)
    ensures 10.0 * RawWeight(accuracy, f1) == 3.0 * accuracy + 7.0 * f1
    ensures accuracy == f1 ==> RawWeight(accuracy, f1) == f1
  {
  }

  function RawWeights(accuracy: seq<real>, f1: seq<real>): (ws: seq<real>)
    requires |accuracy| == |f1|
    ensures |ws| == |f1| && forall i :: 0 <= i < |f1| ==> ws[i] == RawWeight(accuracy[i], f1[i])
  {
    seq(|f1|, i requires 0 <= i < |f1| => RawWeight(accuracy[i], f1[i]))
  }

  /** The first weight loop: fill in the raw weights and add them up. */
  method ScoreProviders(accuracy: seq<real>, f1: seq<real>, weight: array<real>) returns (total: real)
    requires |accuracy| == |f1| == weight.Length
    modifies weight
    ensures weight[..] == RawWeights(accuracy, f1) && total == Sum(weight[..])
  {
    total := 0.0;
    for i := 0 to weight.Length
      invariant weight[..i] == RawWeights(accuracy, f1)[..i]
      invariant total == Sum(weight[..i])
    {
      weight[i] := RawWeight(accuracy[i], f1[i]);
      total := total + weight[i];
      assert weight[..i + 1][..i] == weight[..i];
    }
    assert weight[..] == weight[..weight.Length];
  }

  /** The second weight loop: divide in place. */
  method DivideWeights(weight: array<real>, total: real)
    requires total != 0.0
    modifies weight
    ensures weight[..] == Scaled(old(weight[..]), total)
  {
    ghost var scaled := Scaled(weight[..], total);
    for i := 0 to weight.Length
      invariant weight[..i] == scaled[..i] && weight[i..] == old(weight[i..])
    {
      weight[i] := weight[i] / total;
    }
  }

  /** The provider weights are the raw weights divided by their total, and so sum to one, when that is positive. */
  method AssignWeights(accuracy: seq<real>, f1: seq<real>, weight: array<real>)
    requires |accuracy| == |f1| == weight.Length
    modifies weight
    ensures var raw := RawWeights(accuracy, f1);
            if Sum(raw) > 0.0 then weight[..] == Scaled(raw, Sum(raw)) && Sum(weight[..]) == 1.0
            else weight[..] == raw
  {
    var total := ScoreProviders(accuracy, f1, weight);
    if total > 0.0 {
      SumScaled(weight[..], total);
      DivideWeights(weight, total);
      SelfRatio(total);
    }
  }
}
