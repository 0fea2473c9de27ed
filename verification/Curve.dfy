/** The area under a curve given by points in any order: sort by abscissa, then add trapezoids. */
module Curve {
  import opened Arithmetic
  import opened Sequences

  /** `order` lists every index once, by increasing value. */
  ghost predicate IsArgSort(xs: seq<real>, order: seq<nat>) {
    && |order| == |xs| && Distinct(order)
    && (forall a :: 0 <= a < |order| ==> order[a] < |xs|)
    && (forall a, b :: 0 <= a <= b < |order| ==> xs[order[a]] <= xs[order[b]])
  }

  lemma InsertedOrder(xs: seq<real>, order: seq<nat>, i: nat, k: nat, a: nat, b: nat)
    requires i < |xs| && IsArgSort(xs[..i], order) && k <= |order| && a < b <= |order|
    requires forall c :: 0 <= c < k ==> xs[order[c]] <= xs[i]
    requires forall c :: k <= c < |order| ==> xs[i] <= xs[order[c]]
    ensures var all := order[..k] + [i] + order[k..];
            all[a] != all[b] && all[a] <= i && all[b] <= i && xs[all[a]] <= xs[all[b]]
  {
    var all := order[..k] + [i] + order[k..];
    var c, d := if a < k then a else a - 1, if b < k then b else b - 1;
    assert a != k ==> all[a] == order[c];
    assert b != k ==> all[b] == order[d];
    if a != k && b != k {
      assert xs[..i][order[c]] <= xs[..i][order[d]];
    }
  }

  lemma InsertedAt(xs: seq<real>, order: seq<nat>, i: nat, k: nat)
    requires i < |xs| && IsArgSort(xs[..i], order) && k <= |order|
    requires forall c :: 0 <= c < k ==> xs[order[c]] <= xs[i]
    requires forall c :: k <= c < |order| ==> xs[i] <= xs[order[c]]
    ensures IsArgSort(xs[..i + 1], order[..k] + [i] + order[k..])
  {
    var all := order[..k] + [i] + order[k..];
    forall a, b | 0 <= a < b < |all| ensures all[a] != all[b] && all[a] <= i && all[b] <= i && xs[all[a]] <= xs[all[b]] {
      InsertedOrder(xs, order, i, k, a, b);
    }
  }

  /** Where the next index belongs. */
  method Position(xs: seq<real>, order: seq<nat>, i: nat) returns (k: nat)
    requires i < |xs| && IsArgSort(xs[..i], order)
    ensures k <= |order|
    ensures forall c :: 0 <= c < k ==> xs[order[c]] <= xs[i]
    ensures forall c :: k <= c < |order| ==> xs[i] <= xs[order[c]]
  {
    k := 0;
    while k < |order| && xs[order[k]] <= xs[i]
      invariant k <= |order| && forall c :: 0 <= c < k ==> xs[order[c]] <= xs[i]
    {
      k := k + 1;
    }
    forall c | k <= c < |order| ensures xs[i] <= xs[order[c]] {
      assert xs[..i][order[k]] <= xs[..i][order[c]];
    }
  }

  /** `np.argsort`, one of the orders it may give. */
  method ArgSort(xs: seq<real>) returns (order: seq<nat>)
    ensures IsArgSort(xs, order)
  {
    order := [];
    for i := 0 to |xs|
      invariant IsArgSort(xs[..i], order)
    {
      var k := Position(xs, order, i);
      InsertedAt(xs, order, i, k);
      order := order[..k] + [i] + order[k..];
    }
    assert xs[..|xs|] == xs;
  }

  /** `xs[order]`. */
  function Pick(xs: seq<real>, order: seq<nat>): (r: seq<real>)
    requires forall a :: 0 <= a < |order| ==> order[a] < |xs|
    ensures |r| == |order| && forall a :: 0 <= a < |order| ==> r[a] == xs[order[a]]
  {
    seq(|order|, a requires 0 <= a < |order| => xs[order[a]])
  }

  /** `np.trapz(ys, xs)`. */
  function Trapezoid(ys: seq<real>, xs: seq<real>): real
    requires |ys| == |xs|
  {
    if |xs| <= 1 then 0.0
    else Strip(xs[1] - xs[0], ys[0], ys[1]) + Trapezoid(ys[1..], xs[1..])
  }

  function Strip(width: real, left: real, right: real): real {
    width * (left + right) / 2.0
  }

  lemma StripBound(width: real, left: real, right: real)
    requires width >= 0.0 && 0.0 <= left <= 1.0 && 0.0 <= right <= 1.0
    ensures 0.0 <= Strip(width, left, right) <= width
  {
    NonNegative(width, left + right);
    Scale(width, left + right, 2.0);
  }

  /** The area lies between zero and the width swept. */
  lemma {:induction false} AreaBound(ys: seq<real>, xs: seq<real>)
    requires |ys| == |xs| > 0
    requires InUnit(ys) && Ascending(xs)
    ensures 0.0 <= Trapezoid(ys, xs) <= xs[|xs| - 1] - xs[0]
  {
    if |xs| > 1 {
      AreaBound(ys[1..], xs[1..]);
      StripBound(xs[1] - xs[0], ys[0], ys[1]);
    }
  }

  function Line(a: real, b: real, x: real): real {
    a + b * x
  }

  ghost predicate OnLine(a: real, b: real, ys: seq<real>, xs: seq<real>) {
    |ys| == |xs| && forall i :: 0 <= i < |xs| ==> ys[i] == Line(a, b, xs[i])
  }

  function LineArea(a: real, b: real, x: real, y: real): real {
    a * (y - x) + b * (y * y - x * x) / 2.0
  }

  lemma StripOfLine(a: real, b: real, x: real, y: real)
    ensures Strip(y - x, Line(a, b, x), Line(a, b, y)) == LineArea(a, b, x, y)
  {
    var w := y - x;
    assert w * ((a + b * x) + (a + b * y)) == 2.0 * (a * w) + b * ((y - x) * (y + x));
    assert (y - x) * (y + x) == y * y - x * x;
  }

  lemma LineAreaAdds(a: real, b: real, x: real, y: real, z: real)
    ensures LineArea(a, b, x, y) + LineArea(a, b, y, z) == LineArea(a, b, x, z)
    ensures LineArea(a, b, x, x) == 0.0
  {
    assert a * (y - x) + a * (z - y) == a * (z - x);
    assert b * (y * y - x * x) + b * (z * z - y * y) == b * (z * z - x * x);
  }

  /** One more strip of a line. */
  lemma LineStep(a: real, b: real, x: real, y: real, z: real, left: real, right: real, rest: real)
    requires left == Line(a, b, x) && right == Line(a, b, y) && rest == LineArea(a, b, y, z)
    ensures Strip(y - x, left, right) + rest == LineArea(a, b, x, z)
  {
    StripOfLine(a, b, x, y);
    LineAreaAdds(a, b, x, y, z);
  }

  /** The area is exact under a straight line, whatever points it is given by. */
  lemma {:induction false} AreaOfLine(a: real, b: real, ys: seq<real>, xs: seq<real>)
    requires OnLine(a, b, ys, xs) && xs != []
    ensures Trapezoid(ys, xs) == LineArea(a, b, xs[0], xs[|xs| - 1])
  {
    if |xs| > 1 {
      AreaOfLine(a, b, ys[1..], xs[1..]);
      LineStep(a, b, xs[0], xs[1], xs[|xs| - 1], ys[0], ys[1], Trapezoid(ys[1..], xs[1..]));
    } else {
      LineAreaAdds(a, b, xs[0], xs[0], xs[0]);
    }
  }

  /** The area splits at any point of the list. */
  lemma {:induction false} AreaSplits(ys: seq<real>, xs: seq<real>, k: nat)
    requires |ys| == |xs| && k < |xs|
    ensures Trapezoid(ys, xs) == Trapezoid(ys[..k + 1], xs[..k + 1]) + Trapezoid(ys[k..], xs[k..])
    decreases k
  {
    if k > 0 {
      AreaSplits(ys[1..], xs[1..], k - 1);
      assert ys[..k + 1][1..] == ys[1..][..k] && xs[..k + 1][1..] == xs[1..][..k];
      assert ys[1..][k - 1..] == ys[k..] && xs[1..][k - 1..] == xs[k..];
    } else {
      assert ys[0..] == ys && xs[0..] == xs;
    }
  }

  ghost predicate InUnit(xs: seq<real>) {
    forall i :: 0 <= i < |xs| ==> 0.0 <= xs[i] <= 1.0
  }

  /** The area over the points sorted by abscissa, ties in some order. */
  ghost predicate IsAuc(ys: seq<real>, xs: seq<real>, auc: real)
    requires |ys| == |xs|
  {
    exists order :: IsArgSort(xs, order) && auc == Trapezoid(Pick(ys, order), Pick(xs, order))
  }

  /** In whatever order ties are left, the area under points of the unit square lies in [0, 1]. */
  lemma AucBounded(ys: seq<real>, xs: seq<real>, auc: real)
    requires |ys| == |xs| && InUnit(ys) && InUnit(xs) && IsAuc(ys, xs, auc)
    ensures 0.0 <= auc <= 1.0
  {
    var order :| IsArgSort(xs, order) && auc == Trapezoid(Pick(ys, order), Pick(xs, order));
    PickFacts(ys, xs, order);
    AreaInUnit(Pick(ys, order), Pick(xs, order));
  }

  lemma PickFacts(ys: seq<real>, xs: seq<real>, order: seq<nat>)
    requires |ys| == |xs| && InUnit(ys) && InUnit(xs) && IsArgSort(xs, order)
    ensures InUnit(Pick(ys, order)) && InUnit(Pick(xs, order)) && Ascending(Pick(xs, order))
  {
  }

  ghost predicate Ascending(xs: seq<real>) {
    forall i, j :: 0 <= i <= j < |xs| ==> xs[i] <= xs[j]
  }

  lemma AreaInUnit(ys: seq<real>, xs: seq<real>)
    requires |ys| == |xs| && InUnit(ys) && InUnit(xs) && Ascending(xs)
    ensures 0.0 <= Trapezoid(ys, xs) <= 1.0
  {
    if xs != [] {
      AreaBound(ys, xs);
    }
  }

  method Auc(ys: seq<real>, xs: seq<real>) returns (auc: real)
    requires |ys| == |xs|
    ensures IsAuc(ys, xs, auc)
  {
    var order := ArgSort(xs);
    auc := Trapezoid(Pick(ys, order), Pick(xs, order));
  }
}
