/** The Brier score of scores against labels, and the inequality that ties it to the mean absolute error. */
module BrierScore {
  import opened Arithmetic
  import opened Options

  function Abs(x: real): real {
    if x < 0.0 then -x else x
  }

  function AbsSum(scores: seq<real>, labels: seq<real>): real
    requires |scores| == |labels|
  {
    if scores == [] then 0.0 else AbsSum(scores[1..], labels[1..]) + Abs(labels[0] - scores[0])
  }

  function Square(x: real): real {
    x * x
  }

  function SquareSum(scores: seq<real>, labels: seq<real>): real
    requires |scores| == |labels|
  {
    if scores == [] then 0.0 else SquareSum(scores[1..], labels[1..]) + Square(scores[0] - labels[0])
  }

  /** `np.mean((scores - labels) ** 2)`; the mean of nothing is no number. */
  function Brier(scores: seq<real>, labels: seq<real>): Option<real>
    requires |scores| == |labels|
  {
    if scores == [] then None else Some(SquareSum(scores, labels) / |scores| as real)
  }

  /** Squared errors add up over any split of the samples, and a single one is the square of its error. */
  lemma {:induction false} SquareSumSplits(scores: seq<real>, labels: seq<real>, k: nat)
    requires |scores| == |labels| && k <= |scores|
    ensures SquareSum(scores, labels) == SquareSum(scores[..k], labels[..k]) + SquareSum(scores[k..], labels[k..])
    ensures |scores| == 1 ==> SquareSum(scores, labels) == (scores[0] - labels[0]) * (scores[0] - labels[0])
    decreases k
  {
    if k > 0 {
      SquareSumSplits(scores[1..], labels[1..], k - 1);
      assert scores[..k][1..] == scores[1..][..k - 1] && labels[..k][1..] == labels[1..][..k - 1];
      assert scores[1..][k - 1..] == scores[k..] && labels[1..][k - 1..] == labels[k..];
    } else {
      assert scores[0..] == scores && labels[0..] == labels;
      if |scores| == 1 {
        assert scores[1..] == [] && labels[1..] == [];
      }
    }
  }

  /** The score, once per sample, is the sum of the squared errors. */
  lemma BrierTimes(scores: seq<real>, labels: seq<real>)
    requires |scores| == |labels| > 0
    ensures Times(Brier(scores, labels).value, |scores|) == SquareSum(scores, labels)
  {
    MeanTimes(SquareSum(scores, labels), |scores|);
  }

  lemma MeanTimes(sum: real, k: nat)
    requires k > 0
    ensures Times(sum / k as real, k) == sum
  {
    TimesIsProduct(sum / k as real, k);
    var n := k as real;
    assert sum / n * n == sum;
  }

  lemma SquareBound(x: real, y: real)
    requires 0.0 <= x <= 1.0 && 0.0 <= y <= 1.0
    ensures 0.0 <= Square(x - y) <= 1.0
  {
    var d := Abs(x - y);
    assert Square(x - y) == d * d;
    NonNegative(d, d);
    Scale(d, d, 1.0);
    assert d * d <= d;
  }

  lemma {:induction false} SquareSumBounds(scores: seq<real>, labels: seq<real>)
    requires |scores| == |labels|
    requires forall i :: 0 <= i < |scores| ==> 0.0 <= scores[i] <= 1.0 && 0.0 <= labels[i] <= 1.0
    ensures 0.0 <= SquareSum(scores, labels) <= |scores| as real
  {
    if scores != [] {
      SquareSumBounds(scores[1..], labels[1..]);
      SquareBound(scores[0], labels[0]);
    }
  }

  lemma OneMoreProduct(sum: real, squares: real, a: real, m: real)
    requires m > 0.0 && Square(sum) <= squares * m
    ensures Square(sum + a) <= (squares + Square(a)) * (m + 1.0)
  {
    NotNegative(sum, squares, a, m, squares + m * Square(a) - 2.0 * sum * a);
    assert Square(sum + a) == Square(sum) + 2.0 * sum * a + Square(a);
    assert (squares + Square(a)) * (m + 1.0) == squares * m + m * Square(a) + squares + Square(a);
  }

  /** The step of the Cauchy-Schwarz inequality: one more term, of size `a`. */
  lemma OneMoreTerm(sum: real, squares: real, a: real, k: nat)
    requires k > 0 && Square(sum) <= Times(squares, k)
    ensures Square(sum + a) <= Times(squares + Square(a), k + 1)
  {
    TimesIsProduct(squares, k);
    TimesIsProduct(squares + Square(a), k + 1);
    OneMoreProduct(sum, squares, a, k as real);
    assert (k + 1) as real == k as real + 1.0;
  }

  lemma NotNegative(sum: real, squares: real, a: real, m: real, d: real)
    requires m > 0.0 && Square(sum) <= squares * m && d == squares + m * Square(a) - 2.0 * sum * a
    ensures d >= 0.0
  {
    var root := sum - m * a;
    SquareNotNegative(root);
    var p := m * a;
    assert Square(root) == Square(sum) - 2.0 * (sum * p) + Square(p);
    assert Square(p) == m * (m * Square(a));
    assert sum * p == m * (sum * a);
    assert m * d == m * squares + m * (m * Square(a)) - 2.0 * (m * (sum * a));
    if d < 0.0 {
      Positive(m, -d);
    }
  }

  lemma SquareNotNegative(x: real)
    ensures Square(x) >= 0.0
  {
    var d := Abs(x);
    NonNegative(d, d);
    assert Square(x) == d * d;
  }

  /** The square of the total error is at most the number of samples times the total squared error. */
  lemma {:induction false} SquareOfSum(scores: seq<real>, labels: seq<real>)
    requires |scores| == |labels|
    ensures Square(AbsSum(scores, labels)) <= Times(SquareSum(scores, labels), |scores|)
  {
    if scores != [] {
      SquareOfSum(scores[1..], labels[1..]);
      var a := Abs(labels[0] - scores[0]);
      assert Square(a) == Square(scores[0] - labels[0]);
      if |scores| > 1 {
        OneMoreTerm(AbsSum(scores[1..], labels[1..]), SquareSum(scores[1..], labels[1..]), a, |scores| - 1);
      }
    }
  }

  lemma SquaresOrdered(x: real, y: real)
    requires 0.0 <= x <= y
    ensures x * x <= y * y
  {
    Scale(x, x, y);
    Scale(y, x, y);
  }

  lemma ProductsOrdered(error: real, n: real, total: real, squares: real)
    requires n > 0.0 && 0.0 <= error && error * n <= total && Square(total) <= squares * n
    ensures Square(error) <= squares / n
  {
    var mean := squares / n;
    assert mean * n == squares;
    NonNegative(error, n);
    SquaresOrdered(error * n, total);
    var sq := error * error;
    assert (error * n) * (error * n) == (sq * n) * n;
    Cancel(sq * n, mean * n, n);
    Cancel(sq, mean, n);
  }

  lemma MeansOrdered(error: real, k: nat, total: real, squares: real)
    requires k > 0 && 0.0 <= error && Times(error, k) <= total && Square(total) <= Times(squares, k)
    ensures Square(error) <= squares / k as real
  {
    TimesIsProduct(error, k);
    TimesIsProduct(squares, k);
    ProductsOrdered(error, k as real, total, squares);
  }

  /** What is at most the mean absolute error has a square of at most the Brier score. */
  lemma SquareBelowBrier(scores: seq<real>, labels: seq<real>, error: real)
    requires |scores| == |labels| > 0 && 0.0 <= error && Times(error, |scores|) <= AbsSum(scores, labels)
    ensures Square(error) <= Brier(scores, labels).value
  {
    SquareOfSum(scores, labels);
    MeansOrdered(error, |scores|, AbsSum(scores, labels), SquareSum(scores, labels));
  }

  lemma BrierBounds(scores: seq<real>, labels: seq<real>)
    requires |scores| == |labels| > 0
    requires forall i :: 0 <= i < |scores| ==> 0.0 <= scores[i] <= 1.0 && 0.0 <= labels[i] <= 1.0
    ensures 0.0 <= Brier(scores, labels).value <= 1.0
  {
    SquareSumBounds(scores, labels);
  }
}
