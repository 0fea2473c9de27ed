/** Sequences without repetitions, the sets of their elements, sizes of sets, and sums. */
module Sequences {

  ghost predicate Distinct<T>(items: seq<T>) {
    forall i, j :: 0 <= i < j < |items| ==> items[i] != items[j]
  }

  ghost function Elements<T>(items: seq<T>): set<T> {
    set i | 0 <= i < |items| :: items[i]
  }

  lemma {:induction false} ElementsSize<T>(items: seq<T>)
    ensures |Elements(items)| <= |items|
    ensures Distinct(items) ==> |Elements(items)| == |items|
  {
    if items != [] {
      var n := |items| - 1;
      ElementsSize(items[..n]);
      assert Elements(items) == Elements(items[..n]) + {items[n]};
    }
  }

  lemma ElementsCons<T>(items: seq<T>)
    requires items != []
    ensures Elements(items) == Elements(items[1..]) + {items[0]}
  {
    var rest := items[1..];
    forall x | x in Elements(items) ensures x in Elements(rest) + {items[0]} {
      var i :| 0 <= i < |items| && items[i] == x;
      if i > 0 {
        assert rest[i - 1] == x;
      }
    }
    forall x | x in Elements(rest) ensures x in Elements(items) {
      var i :| 0 <= i < |rest| && rest[i] == x;
      assert items[i + 1] == x;
    }
  }

  lemma ElementsSnoc<T>(items: seq<T>, x: T)
    ensures Elements(items + [x]) == Elements(items) + {x}
    ensures Distinct(items) && x !in Elements(items) ==> Distinct(items + [x])
  {
    var all := items + [x];
    assert all[|items|] == x;
    forall y | y in Elements(items) ensures y in Elements(all) {
      var i :| 0 <= i < |items| && items[i] == y;
      assert all[i] == y;
    }
    if Distinct(items) && x !in Elements(items) {
      forall i, j | 0 <= i < j < |all| ensures all[i] != all[j] {
        assert all[i] == items[i] && items[i] in Elements(items);
      }
    }
  }

  lemma SubsetSize<T>(small: set<T>, big: set<T>)
    requires small <= big
    ensures |small| <= |big|
  {
    assert big == small + (big - small);
  }

  function Sum(xs: seq<real>): real {
    if xs == [] then 0.0 else Sum(xs[..|xs| - 1]) + xs[|xs| - 1]
  }

  /** Sums add up over any split, and a single element is its own sum. */
  lemma {:induction false} SumSplits(xs: seq<real>, ys: seq<real>)
    ensures Sum(xs + ys) == Sum(xs) + Sum(ys)
    ensures |ys| == 1 ==> Sum(ys) == ys[0]
    decreases |ys|
  {
    if ys == [] {
      assert xs + ys == xs;
    } else {
      var n := |ys| - 1;
      SumSplits(xs, ys[..n]);
      assert (xs + ys)[..|xs| + n] == xs + ys[..n];
    }
  }
}
