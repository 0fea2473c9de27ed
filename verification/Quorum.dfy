/**
 Quorum arithmetic of the consensus engine: how many faulty validators are tolerated, how many votes
 make a quorum, and when two quorums are sure to share an honest validator.
 */
module Quorum {
  import opened Sequences

  /** `calculateF`. */
  function Faults(total: int): nat {
    if total <= 0 then 0 else (total - 1) / 3
  }

  /** `calculateQuorum` of `calculateF`. */
  function Threshold(total: int): nat {
    2 * Faults(total) + 1
  }

  datatype Check = Accepted | TooFew | ExceedsTotal | CannotTolerate

  /** `ValidateQuorumMath`. */
  function ValidateQuorumMath(total: int): Check {
    if total < 4 then TooFew
    else if Threshold(total) > total then ExceedsTotal
    else if total - Faults(total) < Threshold(total) then CannotTolerate
    else Accepted
  }

  /** Only the first of the three checks ever refuses. */
  lemma FourSuffice(total: int)
    ensures ValidateQuorumMath(total) == if total >= 4 then Accepted else TooFew
  {
  }

  ghost predicate IsQuorum<V(!new)>(validators: set<V>, votes: set<V>) {
    votes <= validators && |votes| >= Threshold(|validators|)
  }

  ghost predicate Tolerated<V(!new)>(validators: set<V>, faulty: set<V>) {
    faulty <= validators && |faulty| <= Faults(|validators|)
  }

  /** Any two quorums share a validator that is not faulty, whichever tolerated set is. */
  ghost predicate HonestOverlap<V(!new)>(validators: set<V>) {
    forall a, b, faulty :: IsQuorum(validators, a) && IsQuorum(validators, b) && Tolerated(validators, faulty) ==>
      !(a * b <= faulty)
  }

  lemma {:induction false} Take<V>(s: set<V>, k: nat) returns (t: set<V>)
    requires k <= |s|
    ensures t <= s && |t| == k
  {
    if k == 0 {
      t := {};
    } else {
      var x :| x in s;
      var rest := Take(s - {x}, k - 1);
      t := rest + {x};
    }
  }

  lemma OverlapSize<V>(s: set<V>, a: set<V>, b: set<V>)
    requires a <= s && b <= s
    ensures |a * b| >= |a| + |b| - |s|
  {
    assert |a + b| == |a| + |b| - |a * b|;
    SubsetSize(a + b, s);
  }

  lemma OverlapIfOneMod3<V(!new)>(validators: set<V>, a: set<V>, b: set<V>, faulty: set<V>)
    requires |validators| % 3 == 1
    requires IsQuorum(validators, a) && IsQuorum(validators, b) && Tolerated(validators, faulty)
    ensures !(a * b <= faulty)
  {
    OverlapSize(validators, a, b);
    if a * b <= faulty {
      SubsetSize(a * b, faulty);
    }
  }

  /** The least overlap two quorums can have. */
  function LeastOverlap(total: nat): nat {
    if 2 * Threshold(total) <= total then 0 else 2 * Threshold(total) - total
  }

  lemma LeastOverlapTolerated(total: nat)
    requires total > 0 && total % 3 != 1
    ensures LeastOverlap(total) <= Faults(total) && Threshold(total) <= total
    ensures Threshold(total) - LeastOverlap(total) <= total - Threshold(total)
  {
  }

  /** With any other number of validators, two quorums whose overlap can be entirely faulty. */
  lemma FaultyOverlap<V(!new)>(validators: set<V>) returns (a: set<V>, b: set<V>, faulty: set<V>)
    requires validators != {} && |validators| % 3 != 1
    ensures IsQuorum(validators, a) && IsQuorum(validators, b) && Tolerated(validators, faulty) && a * b <= faulty
  {
    var n := |validators|;
    LeastOverlapTolerated(n);
    a := Take(validators, Threshold(n));
    faulty := Take(a, LeastOverlap(n));
    assert |validators - a| == n - Threshold(n);
    var rest := Take(validators - a, Threshold(n) - LeastOverlap(n));
    b := faulty + rest;
    assert faulty !! rest;
  }

  /** Two quorums always share an honest validator exactly when the number of validators is 1 modulo 3, or zero. */
  lemma HonestOverlapExactly<V(!new)>(validators: set<V>)
    ensures HonestOverlap(validators) <==> validators == {} || |validators| % 3 == 1
  {
    if |validators| % 3 == 1 {
      forall a, b, faulty | IsQuorum(validators, a) && IsQuorum(validators, b) && Tolerated(validators, faulty)
        ensures !(a * b <= faulty)
      {
        OverlapIfOneMod3(validators, a, b, faulty);
      }
    } else if validators != {} {
      var a, b, faulty := FaultyOverlap(validators);
    }
  }

  /** Every signer that is not faulty voted for the block; an honest validator has one vote in a view. */
  ghost predicate Certifies<V(!new)>(signers: set<V>, faulty: set<V>, vote: V -> nat, block: nat) {
    forall v :: v in signers && v !in faulty ==> vote(v) == block
  }

  /** Whatever the faulty validators sign, one view certifies at most one block. */
  ghost predicate OneBlockPerView<V(!new)>(validators: set<V>) {
    forall a, b, faulty, vote: V -> nat, x, y ::
      (IsQuorum(validators, a) && IsQuorum(validators, b) && Tolerated(validators, faulty)
       && Certifies(a, faulty, vote, x) && Certifies(b, faulty, vote, y)) ==> x == y
  }

  lemma SharedVote<V(!new)>(validators: set<V>, a: set<V>, b: set<V>, faulty: set<V>, vote: V -> nat, x: nat, y: nat)
    requires HonestOverlap(validators)
    requires IsQuorum(validators, a) && IsQuorum(validators, b) && Tolerated(validators, faulty)
    requires Certifies(a, faulty, vote, x) && Certifies(b, faulty, vote, y)
    ensures x == y
  {
    assert !(a * b <= faulty);
    var v :| v in a * b && v !in faulty;
    assert vote(v) == x && vote(v) == y;
  }

  /** Voting once per view keeps a view to one certified block exactly for those numbers of validators. */
  lemma OneBlockPerViewExactly<V(!new)>(validators: set<V>)
    ensures OneBlockPerView(validators) <==> validators == {} || |validators| % 3 == 1
  {
    HonestOverlapExactly(validators);
    if HonestOverlap(validators) {
      forall a, b, faulty, vote: V -> nat, x, y |
        IsQuorum(validators, a) && IsQuorum(validators, b) && Tolerated(validators, faulty)
        && Certifies(a, faulty, vote, x) && Certifies(b, faulty, vote, y)
        ensures x == y
      {
        SharedVote(validators, a, b, faulty, vote, x, y);
      }
    } else {
      var a, b, faulty := FaultyOverlap(validators);
      var vote: V -> nat := v => if v in a then 0 else 1;
      assert Certifies(a, faulty, vote, 0);
      assert Certifies(b, faulty, vote, 1);
    }
  }
}
