/** Fault bound, threshold and quorum of n parties, and how quorums meet. */
module Quorum {
  import opened Finite

  /** ComputeFTQ on uint16: n - 1 wraps at zero. */
  function F(n: nat): nat { (n - 1) % 0x1_0000 / 3 }

  function Threshold(n: nat): nat { (F(n) + 1) % 0x1_0000 }

  /** The ceiling of (n + f + 1) / 2, converted to uint16. */
  function Q(n: nat): nat { (n + F(n) + 2) / 2 % 0x1_0000 }

  ghost predicate IsQuorum(parties: set<nat>, q: set<nat>) {
    q <= parties && |q| >= Q(|parties|)
  }

  /** A quorum of live parties exists despite f faults, unless there are no parties at all. */
  lemma QuorumIsAvailable(n: nat)
    requires n < 0x1_0000
    ensures Q(n) <= n - F(n) <==> n >= 1
    ensures n >= 1 ==> F(n) + 1 == Threshold(n) <= Q(n)
  {
  }

  /** F(n) is the greatest f with 3f + 1 <= n. */
  lemma FaultsAreMost(n: nat, f: nat)
    requires 1 <= n < 0x1_0000
    ensures 3 * f + 1 <= n <==> f <= F(n)
    ensures 3 * F(n) + 1 <= n <= 3 * F(n) + 3
  {
  }

  /** Q(n) is half of n + F(n) + 1, rounded up. */
  lemma QuorumIsHalf(n: nat)
    requires 1 <= n < 0x1_0000
    ensures 2 * Q(n) >= n + F(n) + 1 > 2 * (Q(n) - 1)
  {
  }

  /** Two sets inside a universe of size n overlap in what exceeds n. */
  lemma Overlap(a: set<nat>, b: set<nat>, universe: set<nat>)
    requires a <= universe && b <= universe
    ensures |a * b| >= |a| + |b| - |universe|
  {
    UnionSize(a, b);
    SubsetSize(a + b, universe);
  }

  /** Within one configuration, two quorums share more than f parties. */
  lemma QuorumsIntersect(parties: set<nat>, a: set<nat>, b: set<nat>)
    requires |parties| < 0x1_0000 && IsQuorum(parties, a) && IsQuorum(parties, b)
    ensures |a * b| >= F(|parties|) + 1
  {
    Overlap(a, b, parties);
    SubsetSize(a, parties);
  }

  /** A part of any size up to that of the whole. */
  lemma {:induction false} PartOfSize(s: set<nat>, k: nat) returns (t: set<nat>)
    requires k <= |s|
    ensures t <= s && |t| == k
    decreases k
  {
    t := {};
    if k > 0 {
      var x :| x in s;
      var rest := PartOfSize(s - {x}, k - 1);
      t := rest + {x};
    }
  }

  /** Two sets of k parties that meet as little as they can. */
  lemma FarApart(parties: set<nat>, k: nat) returns (a: set<nat>, b: set<nat>)
    requires k <= |parties|
    ensures a <= parties && b <= parties && |a| == |b| == k
    ensures |a * b| == if 2 * k <= |parties| then 0 else 2 * k - |parties|
  {
    a := PartOfSize(parties, k);
    var rest := parties - a;
    assert |rest| == |parties| - k;
    if 2 * k <= |parties| {
      b := PartOfSize(rest, k);
      assert a * b == {};
    } else {
      var shared := PartOfSize(a, 2 * k - |parties|);
      b := rest + shared;
      assert a * b == shared;
    }
  }

  /** Any two sets of at least k parties share more than f. */
  ghost predicate AlwaysMeet(parties: set<nat>, k: nat) {
    forall a: set<nat>, b: set<nat> | a <= parties && b <= parties && |a| >= k && |b| >= k ::
      |a * b| >= F(|parties|) + 1
  }

  /** Quorums are as small as they can be: sets of k parties always share more than f if and only if k is a quorum. */
  lemma QuorumIsLeast(parties: set<nat>, k: nat)
    requires 1 <= |parties| < 0x1_0000 && k <= |parties|
    ensures AlwaysMeet(parties, k) <==> k >= Q(|parties|)
  {
    QuorumIsHalf(|parties|);
    QuorumIsAvailable(|parties|);
    if k >= Q(|parties|) {
      forall a: set<nat>, b: set<nat> | a <= parties && b <= parties && |a| >= k && |b| >= k
        ensures |a * b| >= F(|parties|) + 1
      {
        QuorumsIntersect(parties, a, b);
      }
    } else {
      var a, b := FarApart(parties, k);
      assert |a * b| <= F(|parties|);
    }
  }

  /** One configuration is the other, with one party added, removed, or none. */
  ghost predicate OneApart(p: set<nat>, q: set<nat>) {
    p == q || (exists x :: x !in p && q == p + {x}) || (exists x :: x !in q && p == q + {x})
  }

  /** The quorums of n and of n + 1 parties exceed n + 1 by more than f. */
  lemma AdjacentQuorums(n: nat)
    requires 1 <= n && n + 1 < 0x1_0000
    ensures Q(n) + Q(n + 1) >= n + 1 + F(n) + 1
  {
  }

  lemma GrownQuorumsIntersect(small: set<nat>, big: set<nat>, a: set<nat>, b: set<nat>)
    requires small <= big && |big| == |small| + 1 < 0x1_0000 && IsQuorum(small, a) && IsQuorum(big, b)
    ensures |a * b| >= F(|small|) + 1
  {
    Overlap(a, b, big);
    SubsetSize(a, small);
    AdjacentQuorums(|small|);
  }

  /**
   * Across a change of at most one party, a quorum of the old configuration and one of the new share
   * more parties than may be faulty in the configuration that tolerates fewer.
   */
  lemma TransitionQuorumsIntersect(p: set<nat>, q: set<nat>, a: set<nat>, b: set<nat>)
    requires OneApart(p, q) && |p| < 0x1_0000 && |q| < 0x1_0000 && IsQuorum(p, a) && IsQuorum(q, b)
    ensures |a * b| >= (if F(|p|) <= F(|q|) then F(|p|) else F(|q|)) + 1
  {
    if p == q {
      QuorumsIntersect(p, a, b);
    } else if p <= q {
      GrownQuorumsIntersect(p, q, a, b);
    } else {
      GrownQuorumsIntersect(q, p, b, a);
      assert a * b == b * a;
    }
  }

  /** n - f acceptances leave more than f of them in every quorum. */
  lemma AcceptedReachesQuorum(parties: set<nat>, accepted: set<nat>, q: set<nat>)
    requires 1 <= |parties| < 0x1_0000 && accepted <= parties && IsQuorum(parties, q)
    requires |accepted| >= |parties| - F(|parties|)
    ensures |accepted * q| >= F(|parties|) + 1
  {
    Overlap(accepted, q, parties);
  }
}
