/** Rates of confusion counts, and the F1 score. */
module Rates {
  import opened Arithmetic

  function Rate(part: nat, whole: nat): real {
    if whole > 0 then part as real / whole as real else 0.0
  }

  lemma RateMonotone(a: nat, b: nat, whole: nat)
    requires a <= b
    ensures Rate(a, whole) <= Rate(b, whole)
  {
    if whole > 0 {
      var w := whole as real;
      assert b as real / w - a as real / w == (b - a) as real / w;
    }
  }

  lemma RateBounds(a: nat, whole: nat)
    requires a <= whole
    ensures 0.0 <= Rate(a, whole) <= 1.0
  {
  }

  /** The rate times the whole is the part; of nothing the rate is zero. */
  ghost predicate IsRate(rate: real, part: nat, whole: nat) {
    if whole > 0 then rate * whole as real == part as real else rate == 0.0
  }

  lemma RateIs(part: nat, whole: nat)
    ensures IsRate(Rate(part, whole), part, whole)
  {
    if whole > 0 {
      var w := whole as real;
      assert part as real / w * w == part as real;
    }
  }

  lemma RatesAddUp(a: nat, b: nat)
    ensures a + b > 0 ==> Rate(a, a + b) + Rate(b, a + b) == 1.0
  {
    if a + b > 0 {
      var w := (a + b) as real;
      var x, y := a as real / w, b as real / w;
      assert x * w == a as real && y * w == b as real;
      assert w == a as real + b as real;
      assert (x + y) * w == x * w + y * w;
      Cancel(x + y, 1.0, w);
      Cancel(1.0, x + y, w);
    }
  }

  /** The harmonic mean of precision and recall, as the sweeps compute it. */
  function Harmonic(precision: real, recall: real): real {
    if precision + recall > 0.0 then 2.0 * precision * recall / (precision + recall) else 0.0
  }

  /** The F1 score, directly from the counts. */
  function CountsF1(tp: nat, fp: nat, fn: nat): real {
    Rate(2 * tp, 2 * tp + fp + fn)
  }

  /** The harmonic mean of precision and recall is the F1 score of the counts. */
  lemma HarmonicIsF1(tp: nat, fp: nat, fn: nat)
    ensures Harmonic(Rate(tp, tp + fp), Rate(tp, tp + fn)) == CountsF1(tp, fp, fn)
  {
  }
}
