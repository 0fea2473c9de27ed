/**
 Expected and maximum calibration error over half-open score bins. The bin edges are any strictly
 increasing sequence from 0 to 1.
 */
module CalibrationError {
  import opened Arithmetic
  import opened BrierScore
  import opened Options
  import opened Sequences

  predicate InBin(score: real, lo: real, hi: real) {
    lo <= score < hi
  }

  function Size(scores: seq<real>, lo: real, hi: real): nat {
    if scores == [] then 0 else Size(scores[1..], lo, hi) + if InBin(scores[0], lo, hi) then 1 else 0
  }

  /** The sum of `xs` over the samples in the bin. */
  function SumIn(scores: seq<real>, xs: seq<real>, lo: real, hi: real): real
    requires |scores| == |xs|
  {
    if scores == [] then 0.0
    else SumIn(scores[1..], xs[1..], lo, hi) + if InBin(scores[0], lo, hi) then xs[0] else 0.0
  }

  function CountOnes(scores: seq<real>): nat {
    if scores == [] then 0 else CountOnes(scores[1..]) + if scores[0] == 1.0 then 1 else 0
  }

  ghost predicate UnitRange(xs: seq<real>) {
    forall i :: 0 <= i < |xs| ==> 0.0 <= xs[i] <= 1.0
  }

  lemma {:induction false} SumBounds(scores: seq<real>, xs: seq<real>, lo: real, hi: real)
    requires |scores| == |xs| && UnitRange(xs)
    ensures 0.0 <= SumIn(scores, xs, lo, hi) <= Size(scores, lo, hi) as real
  {
    if scores != [] {
      SumBounds(scores[1..], xs[1..], lo, hi);
    }
  }

  /** Sums over adjacent bins add up, and the sum over a bin that holds every sample is the whole sum. */
  lemma {:induction false} SumInSplits(scores: seq<real>, xs: seq<real>, lo: real, mid: real, hi: real)
    requires |scores| == |xs| && lo <= mid <= hi
    ensures SumIn(scores, xs, lo, mid) + SumIn(scores, xs, mid, hi) == SumIn(scores, xs, lo, hi)
    ensures (forall i :: 0 <= i < |scores| ==> InBin(scores[i], lo, hi)) ==> SumIn(scores, xs, lo, hi) == Sum(xs)
  {
    if scores != [] {
      SumInSplits(scores[1..], xs[1..], lo, mid, hi);
      SumSplits([xs[0]], xs[1..]);
      assert [xs[0]] + xs[1..] == xs;
      SumSplits([], [xs[0]]);
    }
  }

  /** Nothing is summed over an empty bin. */
  lemma {:induction false} EmptySum(scores: seq<real>, xs: seq<real>, lo: real, hi: real)
    requires |scores| == |xs| && Size(scores, lo, hi) == 0
    ensures SumIn(scores, xs, lo, hi) == 0.0
  {
    if scores != [] {
      EmptySum(scores[1..], xs[1..], lo, hi);
    }
  }

  /** Adjacent bins share no sample and together are the bin over both. */
  lemma {:induction false} SizeSplits(scores: seq<real>, lo: real, mid: real, hi: real)
    requires lo <= mid <= hi
    ensures Size(scores, lo, mid) + Size(scores, mid, hi) == Size(scores, lo, hi)
  {
    if scores != [] {
      SizeSplits(scores[1..], lo, mid, hi);
    }
  }

  lemma {:induction false} WholeRange(scores: seq<real>)
    requires UnitRange(scores)
    ensures Size(scores, 0.0, 1.0) == |scores| - CountOnes(scores)
  {
    if scores != [] {
      WholeRange(scores[1..]);
    }
  }

  ghost predicate Edges(edges: seq<real>) {
    && |edges| >= 2 && edges[0] == 0.0 && edges[|edges| - 1] == 1.0
    && forall i, j :: 0 <= i < j < |edges| ==> edges[i] < edges[j]
  }

  function TotalSize(scores: seq<real>, edges: seq<real>, k: nat): nat
    requires k < |edges|
  {
    if k == 0 then 0 else TotalSize(scores, edges, k - 1) + Size(scores, edges[k - 1], edges[k])
  }

  lemma {:induction false} TotalTelescopes(scores: seq<real>, edges: seq<real>, k: nat)
    requires Edges(edges) && k < |edges|
    ensures TotalSize(scores, edges, k) == Size(scores, 0.0, edges[k])
  {
    if k > 0 {
      TotalTelescopes(scores, edges, k - 1);
      SizeSplits(scores, 0.0, edges[k - 1], edges[k]);
    } else {
      EmptyBin(scores);
    }
  }

  lemma {:induction false} EmptyBin(scores: seq<real>)
    ensures Size(scores, 0.0, 0.0) == 0
  {
    if scores != [] {
      EmptyBin(scores[1..]);
    }
  }

  /** The bins hold every sample except those scored exactly 1, each once. */
  lemma BinsCoverAllButOnes(scores: seq<real>, edges: seq<real>)
    requires Edges(edges) && UnitRange(scores)
    ensures TotalSize(scores, edges, |edges| - 1) == |scores| - CountOnes(scores)
  {
    TotalTelescopes(scores, edges, |edges| - 1);
    WholeRange(scores);
  }

  lemma EdgeOrder(edges: seq<real>, i: nat, j: nat)
    requires Edges(edges) && i < |edges| && j < |edges|
    ensures i <= j <==> edges[i] <= edges[j]
  {
  }

  /** No score lies in two bins. */
  lemma BinsDisjoint(edges: seq<real>, score: real, i: nat, j: nat)
    requires Edges(edges) && i + 1 < |edges| && j + 1 < |edges|
    requires InBin(score, edges[i], edges[i + 1]) && InBin(score, edges[j], edges[j + 1])
    ensures i == j
  {
    EdgeOrder(edges, i + 1, j);
    EdgeOrder(edges, j + 1, i);
  }

  datatype Bin = Bin(index: nat, samples: nat, accuracy: real, confidence: real, gap: real)

  function BinAt(scores: seq<real>, labels: seq<real>, edges: seq<real>, i: nat): Bin
    requires |scores| == |labels| && i + 1 < |edges| && Size(scores, edges[i], edges[i + 1]) > 0
  {
    var size := Size(scores, edges[i], edges[i + 1]);
    var accuracy := SumIn(scores, labels, edges[i], edges[i + 1]) / size as real;
    var confidence := SumIn(scores, scores, edges[i], edges[i + 1]) / size as real;
    Bin(i, size, accuracy, confidence, Abs(accuracy - confidence))
  }

  /** The non-empty bins among the first `k`. */
  function Bins(scores: seq<real>, labels: seq<real>, edges: seq<real>, k: nat): seq<Bin>
    requires |scores| == |labels| && k < |edges|
  {
    if k == 0 then []
    else Bins(scores, labels, edges, k - 1)
         + if Size(scores, edges[k - 1], edges[k]) > 0 then [BinAt(scores, labels, edges, k - 1)] else []
  }

  lemma MeanBounds(sum: real, size: nat)
    requires size > 0 && 0.0 <= sum <= size as real
    ensures 0.0 <= sum / size as real <= 1.0
  {
  }

  function Samples(bins: seq<Bin>): nat {
    if bins == [] then 0 else Samples(bins[..|bins| - 1]) + bins[|bins| - 1].samples
  }

  /** The expected error: the gaps weighted by the share of samples. */
  function Ece(bins: seq<Bin>, n: nat): real
    requires n > 0
  {
    if bins == [] then 0.0
    else Ece(bins[..|bins| - 1], n) + Share(bins[|bins| - 1].gap, bins[|bins| - 1].samples, n)
  }

  function Share(gap: real, samples: nat, n: nat): real
    requires n > 0
  {
    gap * samples as real / n as real
  }

  ghost predicate IsMaxGap(bins: seq<Bin>, mce: real) {
    && (forall i :: 0 <= i < |bins| ==> bins[i].gap <= mce)
    && if bins == [] then mce == 0.0 else exists i :: 0 <= i < |bins| && bins[i].gap == mce
  }

  ghost predicate GapsInUnit(bins: seq<Bin>) {
    forall i :: 0 <= i < |bins| ==> 0.0 <= bins[i].gap <= 1.0
  }

  /** Whatever bounds every gap, weighted by the samples seen, bounds the expected error. */
  lemma {:induction false} EceBound(bins: seq<Bin>, n: nat, mce: real)
    requires n > 0 && GapsInUnit(bins) && forall i :: 0 <= i < |bins| ==> bins[i].gap <= mce
    ensures 0.0 <= Ece(bins, n) && Ece(bins, n) * n as real <= mce * Samples(bins) as real
  {
    if bins != [] {
      var init, last := bins[..|bins| - 1], bins[|bins| - 1];
      EceBound(init, n, mce);
      EceStep(Ece(init, n), last.gap, mce, last.samples, n, Samples(init));
      assert Ece(bins, n) == Ece(init, n) + Share(last.gap, last.samples, n);
      assert Samples(bins) == Samples(init) + last.samples;
    }
  }

  lemma EceStep(before: real, gap: real, mce: real, samples: nat, n: nat, seen: nat)
    requires n > 0 && 0.0 <= before && before * n as real <= mce * seen as real && 0.0 <= gap <= mce
    ensures 0.0 <= before + Share(gap, samples, n)
    ensures (before + Share(gap, samples, n)) * n as real <= mce * (seen + samples) as real
  {
    var w, size := gap * samples as real, samples as real;
    Scale(size, gap, mce);
    var part := Share(gap, samples, n);
    assert part * n as real == w;
    assert 0.0 <= w;
    if part < 0.0 {
      Positive(-part, n as real);
    }
    assert (before + part) * n as real == before * n as real + part * n as real;
    assert mce * (seen as real + size) == mce * seen as real + mce * size;
    assert (seen + samples) as real == seen as real + size;
  }

  lemma Squeeze(e: real, m: real, seen: real, all: real)
    requires 0.0 <= m && seen <= all && all > 0.0 && e * all <= m * seen
    ensures e <= m
  {
    Scale(m, seen, all);
    Cancel(e, m, all);
  }

  /** The expected error lies between zero and the maximum error, which is at most one. */
  lemma EceBelowMce(bins: seq<Bin>, n: nat, mce: real)
    requires n > 0 && GapsInUnit(bins) && IsMaxGap(bins, mce) && Samples(bins) <= n
    ensures 0.0 <= Ece(bins, n) <= mce <= 1.0
  {
    EceBound(bins, n, mce);
    Squeeze(Ece(bins, n), mce, Samples(bins) as real, n as real);
  }

  // ----- The absolute errors of a bin -----

  /** The absolute errors of the samples in the bin, added up. */
  function AbsIn(scores: seq<real>, labels: seq<real>, lo: real, hi: real): real
    requires |scores| == |labels|
  {
    if scores == [] then 0.0
    else AbsIn(scores[1..], labels[1..], lo, hi) + if InBin(scores[0], lo, hi) then Abs(labels[0] - scores[0]) else 0.0
  }

  lemma {:induction false} TriangleIn(scores: seq<real>, labels: seq<real>, lo: real, hi: real)
    requires |scores| == |labels|
    ensures Abs(SumIn(scores, labels, lo, hi) - SumIn(scores, scores, lo, hi)) <= AbsIn(scores, labels, lo, hi)
  {
    if scores != [] {
      TriangleIn(scores[1..], labels[1..], lo, hi);
    }
  }

  lemma {:induction false} AbsSplits(scores: seq<real>, labels: seq<real>, lo: real, mid: real, hi: real)
    requires |scores| == |labels| && lo <= mid <= hi
    ensures AbsIn(scores, labels, lo, mid) + AbsIn(scores, labels, mid, hi) == AbsIn(scores, labels, lo, hi)
  {
    if scores != [] {
      AbsSplits(scores[1..], labels[1..], lo, mid, hi);
    }
  }

  lemma {:induction false} AbsWithin(scores: seq<real>, labels: seq<real>, lo: real, hi: real)
    requires |scores| == |labels|
    ensures 0.0 <= AbsIn(scores, labels, lo, hi) <= AbsSum(scores, labels)
  {
    if scores != [] {
      AbsWithin(scores[1..], labels[1..], lo, hi);
    }
  }

  /** The gap between two means of values in [0, 1] lies in [0, 1] and, once per sample, is the gap between the sums. */
  lemma GapFacts(a: real, b: real, size: nat)
    requires size > 0 && 0.0 <= a <= size as real && 0.0 <= b <= size as real
    ensures var gap := Abs(a / size as real - b / size as real);
            0.0 <= gap <= 1.0 && Times(gap, size) == Abs(a - b)
  {
    var n := size as real;
    var x, y := a / n, b / n;
    MeanBounds(a, size);
    MeanBounds(b, size);
    TimesIsProduct(Abs(x - y), size);
    assert x * n == a && y * n == b;
    assert (x - y) * n == a - b;
    if x < y {
      Positive(y - x, n);
      assert (y - x) * n == b - a;
    } else {
      NonNegative(x - y, n);
    }
  }

  /** How far the labels and the scores of a bin are apart in total. */
  function BinError(scores: seq<real>, labels: seq<real>, edges: seq<real>, i: nat): real
    requires |scores| == |labels| && i + 1 < |edges|
  {
    Abs(SumIn(scores, labels, edges[i], edges[i + 1]) - SumIn(scores, scores, edges[i], edges[i + 1]))
  }

  function BinErrors(scores: seq<real>, labels: seq<real>, edges: seq<real>, k: nat): real
    requires |scores| == |labels| && k < |edges|
  {
    if k == 0 then 0.0 else BinErrors(scores, labels, edges, k - 1) + BinError(scores, labels, edges, k - 1)
  }

  lemma {:induction false} BinErrorsBelowAbs(scores: seq<real>, labels: seq<real>, edges: seq<real>, k: nat)
    requires |scores| == |labels| && Edges(edges) && k < |edges|
    ensures BinErrors(scores, labels, edges, k) <= AbsIn(scores, labels, 0.0, edges[k])
  {
    if k == 0 {
      AbsWithin(scores, labels, 0.0, edges[0]);
    } else {
      BinErrorsBelowAbs(scores, labels, edges, k - 1);
      TriangleIn(scores, labels, edges[k - 1], edges[k]);
      AbsSplits(scores, labels, 0.0, edges[k - 1], edges[k]);
    }
  }

  /** What a bin's three figures, once per sample, add up to. */
  lemma BinFacts(scores: seq<real>, labels: seq<real>, edges: seq<real>, i: nat)
    requires |scores| == |labels| && i + 1 < |edges| && Size(scores, edges[i], edges[i + 1]) > 0
    requires UnitRange(scores) && UnitRange(labels)
    ensures var bin := BinAt(scores, labels, edges, i);
            && bin.index == i && bin.samples == Size(scores, edges[i], edges[i + 1])
            && 0.0 <= bin.gap <= 1.0 && Times(bin.gap, bin.samples) == BinError(scores, labels, edges, i)
            && Times(bin.accuracy, bin.samples) == SumIn(scores, labels, edges[i], edges[i + 1])
            && Times(bin.confidence, bin.samples) == SumIn(scores, scores, edges[i], edges[i + 1])
  {
    var lo, hi := edges[i], edges[i + 1];
    SumBounds(scores, labels, lo, hi);
    SumBounds(scores, scores, lo, hi);
    MeanTimes(SumIn(scores, labels, lo, hi), Size(scores, lo, hi));
    MeanTimes(SumIn(scores, scores, lo, hi), Size(scores, lo, hi));
    GapFacts(SumIn(scores, labels, lo, hi), SumIn(scores, scores, lo, hi), Size(scores, lo, hi));
  }

  // ----- The loop -----

  /** The bin with the mean label and the mean score of its samples. */
  method MeasureBin(scores: seq<real>, labels: seq<real>, edges: seq<real>, i: nat, size: nat) returns (bin: Bin)
    requires |scores| == |labels| && i + 1 < |edges| && size == Size(scores, edges[i], edges[i + 1]) > 0
    requires UnitRange(scores) && UnitRange(labels)
    ensures bin == BinAt(scores, labels, edges, i) && bin.samples == size && 0.0 <= bin.gap <= 1.0
    ensures Times(bin.gap, size) == BinError(scores, labels, edges, i)
  {
    BinFacts(scores, labels, edges, i);
    var accuracy := SumIn(scores, labels, edges[i], edges[i + 1]) / size as real;
    var confidence := SumIn(scores, scores, edges[i], edges[i + 1]) / size as real;
    bin := Bin(i, size, accuracy, confidence, Abs(accuracy - confidence));
  }

  /** The running error after the bins so far; with no samples there are no bins and it stays zero. */
  ghost predicate IsEce(ece: real, bins: seq<Bin>, n: nat) {
    if n == 0 then ece == 0.0 else ece == Ece(bins, n)
  }

  /** The running error, once per sample, is the total so far. */
  ghost predicate Totals(ece: real, n: nat, total: real) {
    Times(ece, n) == total
  }

  lemma ShareTimes(gap: real, samples: nat, n: nat)
    requires n > 0
    ensures Times(Share(gap, samples, n), n) == Times(gap, samples)
  {
    TimesIsProduct(Share(gap, samples, n), n);
    TimesIsProduct(gap, samples);
    var w, d := gap * samples as real, n as real;
    assert w / d * d == w;
  }

  lemma TotalsGrow(ece: real, n: nat, total: real, gap: real, samples: nat)
    requires n > 0 && Totals(ece, n, total)
    ensures Totals(ece + Share(gap, samples, n), n, total + Times(gap, samples))
  {
    ShareTimes(gap, samples, n);
    TimesAdds(ece, Share(gap, samples, n), n);
  }

  /** What the loop keeps about the bins it has measured. */
  ghost predicate Measured(ece: real, mce: real, bins: seq<Bin>, n: nat, samples: nat) {
    IsEce(ece, bins, n) && IsMaxGap(bins, mce) && mce >= 0.0 && GapsInUnit(bins) && Samples(bins) == samples
  }

  lemma MeasuredSnoc(ece: real, mce: real, bins: seq<Bin>, n: nat, samples: nat, bin: Bin)
    requires n > 0 && Measured(ece, mce, bins, n, samples) && 0.0 <= bin.gap <= 1.0
    ensures Measured(ece + Share(bin.gap, bin.samples, n), if bin.gap > mce then bin.gap else mce, bins + [bin], n,
                     samples + bin.samples)
  {
    assert (bins + [bin])[..|bins|] == bins;
    MaxGapSnoc(bins, bin, mce);
  }

  /** The first `k` bins are measured. */
  ghost predicate Through(scores: seq<real>, labels: seq<real>, edges: seq<real>, k: nat, ece: real, mce: real, bins: seq<Bin>)
    requires |scores| == |labels| && k < |edges|
  {
    bins == Bins(scores, labels, edges, k) && Measured(ece, mce, bins, |scores|, TotalSize(scores, edges, k))
  }

  lemma EmptyBinKeeps(scores: seq<real>, labels: seq<real>, edges: seq<real>, i: nat, ece: real, mce: real, bins: seq<Bin>)
    requires |scores| == |labels| && i + 1 < |edges| && Through(scores, labels, edges, i, ece, mce, bins)
    requires Size(scores, edges[i], edges[i + 1]) == 0
    ensures Through(scores, labels, edges, i + 1, ece, mce, bins)
  {
  }

  lemma BinKeeps(scores: seq<real>, labels: seq<real>, edges: seq<real>, i: nat, ece: real, mce: real, bins: seq<Bin>, bin: Bin)
    requires |scores| == |labels| && i + 1 < |edges| && Through(scores, labels, edges, i, ece, mce, bins)
    requires Size(scores, edges[i], edges[i + 1]) > 0 && bin == BinAt(scores, labels, edges, i) && 0.0 <= bin.gap <= 1.0
    ensures |scores| > 0
    ensures Through(scores, labels, edges, i + 1, ece + Share(bin.gap, bin.samples, |scores|),
                    if bin.gap > mce then bin.gap else mce, bins + [bin])
  {
    MeasuredSnoc(ece, mce, bins, |scores|, TotalSize(scores, edges, i), bin);
  }

  /** The running error, once per sample, is the bins' errors added up. */
  ghost predicate TotalsAt(scores: seq<real>, labels: seq<real>, edges: seq<real>, k: nat, ece: real)
    requires |scores| == |labels| && k < |edges|
  {
    Totals(ece, |scores|, BinErrors(scores, labels, edges, k))
  }

  lemma TotalsAtNext(scores: seq<real>, labels: seq<real>, edges: seq<real>, i: nat, ece: real, gap: real, samples: nat)
    requires |scores| == |labels| && i + 1 < |edges| && TotalsAt(scores, labels, edges, i, ece)
    ensures Size(scores, edges[i], edges[i + 1]) == 0 ==> TotalsAt(scores, labels, edges, i + 1, ece)
    ensures |scores| > 0 && Times(gap, samples) == BinError(scores, labels, edges, i) ==>
              TotalsAt(scores, labels, edges, i + 1, ece + Share(gap, samples, |scores|))
  {
    if Size(scores, edges[i], edges[i + 1]) == 0 {
      EmptySum(scores, labels, edges[i], edges[i + 1]);
      EmptySum(scores, scores, edges[i], edges[i + 1]);
    }
    if |scores| > 0 {
      TotalsGrow(ece, |scores|, BinErrors(scores, labels, edges, i), gap, samples);
    }
  }

  /** The body of the loop. */
  method AddBin(scores: seq<real>, labels: seq<real>, edges: seq<real>, i: nat, ece: real, mce: real, bins: seq<Bin>)
    returns (eceAfter: real, mceAfter: real, binsAfter: seq<Bin>)
    requires |scores| == |labels| && Edges(edges) && i + 1 < |edges| && UnitRange(scores) && UnitRange(labels)
    requires Through(scores, labels, edges, i, ece, mce, bins) && TotalsAt(scores, labels, edges, i, ece)
    ensures Through(scores, labels, edges, i + 1, eceAfter, mceAfter, binsAfter)
    ensures TotalsAt(scores, labels, edges, i + 1, eceAfter)
  {
    eceAfter, mceAfter, binsAfter := ece, mce, bins;
    var size := Size(scores, edges[i], edges[i + 1]);
    if size > 0 {
      var bin := MeasureBin(scores, labels, edges, i, size);
      BinKeeps(scores, labels, edges, i, ece, mce, bins, bin);
      TotalsAtNext(scores, labels, edges, i, ece, bin.gap, bin.samples);
      eceAfter := ece + Share(bin.gap, bin.samples, |scores|);
      mceAfter := if bin.gap > mce then bin.gap else mce;
      binsAfter := bins + [bin];
    } else {
      EmptyBinKeeps(scores, labels, edges, i, ece, mce, bins);
      TotalsAtNext(scores, labels, edges, i, ece, 0.0, 0);
    }
  }

  lemma NoBinsYet(scores: seq<real>, labels: seq<real>, edges: seq<real>)
    requires |scores| == |labels| && Edges(edges)
    ensures Through(scores, labels, edges, 0, 0.0, 0.0, []) && TotalsAt(scores, labels, edges, 0, 0.0)
  {
    TimesIsProduct(0.0, |scores|);
  }

  /** The loop over the bins. */
  method MeasureBins(scores: seq<real>, labels: seq<real>, edges: seq<real>) returns (ece: real, mce: real, bins: seq<Bin>)
    requires |scores| == |labels| && Edges(edges) && UnitRange(scores) && UnitRange(labels)
    ensures Through(scores, labels, edges, |edges| - 1, ece, mce, bins) && TotalsAt(scores, labels, edges, |edges| - 1, ece)
  {
    ece, mce, bins := 0.0, 0.0, [];
    NoBinsYet(scores, labels, edges);
    for i := 0 to |edges| - 1
      invariant Through(scores, labels, edges, i, ece, mce, bins) && TotalsAt(scores, labels, edges, i, ece)
    {
      ece, mce, bins := AddBin(scores, labels, edges, i, ece, mce, bins);
    }
  }

  lemma FiguresBounded(ece: real, mce: real, bins: seq<Bin>, n: nat, samples: nat)
    requires Measured(ece, mce, bins, n, samples) && samples <= n
    ensures 0.0 <= ece <= mce <= 1.0
  {
    if n > 0 {
      EceBelowMce(bins, n, mce);
    }
  }

  /** The square of the expected calibration error never exceeds the Brier score. */
  lemma EceSquaredBelowBrier(scores: seq<real>, labels: seq<real>, edges: seq<real>, ece: real)
    requires |scores| == |labels| > 0 && Edges(edges) && 0.0 <= ece && TotalsAt(scores, labels, edges, |edges| - 1, ece)
    ensures Square(ece) <= Brier(scores, labels).value
  {
    BinErrorsBelowAbs(scores, labels, edges, |edges| - 1);
    AbsWithin(scores, labels, 0.0, edges[|edges| - 1]);
    SquareBelowBrier(scores, labels, ece);
  }

  /** `compute_calibration_metrics`: the Brier score, the two error figures and the bin table. */
  method CalibrationMetrics(scores: seq<real>, labels: seq<real>, edges: seq<real>)
    returns (brier: Option<real>, ece: real, mce: real, bins: seq<Bin>)
    requires |scores| == |labels| && Edges(edges) && UnitRange(scores)
    requires forall i :: 0 <= i < |labels| ==> labels[i] == 0.0 || labels[i] == 1.0
    ensures bins == Bins(scores, labels, edges, |edges| - 1)
    ensures IsEce(ece, bins, |scores|) && IsMaxGap(bins, mce)
    ensures Times(ece, |scores|) == BinErrors(scores, labels, edges, |edges| - 1)
    ensures Samples(bins) == |scores| - CountOnes(scores)
    ensures 0.0 <= ece <= mce <= 1.0
    ensures brier == Brier(scores, labels) && (brier.Some? ==> Square(ece) <= brier.value <= 1.0)
  {
    brier := Brier(scores, labels);
    ece, mce, bins := MeasureBins(scores, labels, edges);
    BinsCoverAllButOnes(scores, edges);
    FiguresBounded(ece, mce, bins, |scores|, TotalSize(scores, edges, |edges| - 1));
    if scores != [] {
      BrierBounds(scores, labels);
      EceSquaredBelowBrier(scores, labels, edges, ece);
    }
  }

  lemma MaxGapSnoc(bins: seq<Bin>, bin: Bin, mce: real)
    requires IsMaxGap(bins, mce) && mce >= 0.0 && bin.gap >= 0.0
    ensures IsMaxGap(bins + [bin], if bin.gap > mce then bin.gap else mce)
  {
    var all := bins + [bin];
    assert all[|bins|] == bin;
    if bins != [] {
      var i :| 0 <= i < |bins| && bins[i].gap == mce;
      assert all[i].gap == mce;
    }
  }
}
