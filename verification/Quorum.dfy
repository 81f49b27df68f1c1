/** Committee thresholds and the arithmetic that depends on them. */
module Quorum {

  /** Integer division as the source's language does it: towards zero. */
  function TruncDiv(a: int, b: int): int
    requires b > 0
  {
    if a >= 0 then a / b else -((-a) / b)
  }

  function HighThreshold(n: nat): int {
    2 * TruncDiv(n - 1, 3) + 1
  }

  function LowThreshold(n: nat): int {
    TruncDiv(n - 1, 3) + 1
  }

  /** Members are numbered 0 .. n-1. */
  function Committee(n: nat): (members: set<int>)
    ensures forall i :: i in members <==> 0 <= i < n
  {
    if n == 0 then {} else Committee(n - 1) + {n - 1}
  }

  lemma {:induction false} CommitteeSize(n: nat)
    ensures |Committee(n)| == n
  {
    if n == 0 {
    } else {
      CommitteeSize(n - 1);
    }
  }

  lemma {:induction false} SubsetSize<T>(a: set<T>, b: set<T>)
    requires a <= b
    ensures |a| <= |b|
    decreases |a|
  {
    if a != {} {
      var y :| y in a;
      SubsetSize(a - {y}, b - {y});
    }
  }

  lemma MembersBound(s: set<int>, n: nat)
    requires s <= Committee(n)
    ensures |s| <= n
  {
    CommitteeSize(n);
    SubsetSize(s, Committee(n));
  }

  /** A committee of 3f+1 up to 3f+3 members tolerates f faults, with thresholds 2f+1 and f+1. */
  lemma ThresholdsExact(n: nat, f: nat)
    ensures 3 * f + 1 <= n <= 3 * f + 3 <==> n >= 1 && HighThreshold(n) == 2 * f + 1
    ensures 3 * f + 1 <= n <= 3 * f + 3 <==> n >= 1 && LowThreshold(n) == f + 1
  {}

  /** Two disjoint quorums fit into a committee of n exactly for n = 2, 3 and 6. */
  lemma TwoQuorumsFit(n: nat)
    ensures n >= 1 ==> (2 * HighThreshold(n) <= n <==> n in {2, 3, 6})
    ensures n >= 1 ==> 1 <= HighThreshold(n) <= n
  {}

  /** Two quorums overlap in at least `2 * HighThreshold(n) - n` members, and that bound is
      the low threshold exactly for committees of size 3f + 1. */
  lemma QuorumOverlap(n: nat, a: set<int>, b: set<int>)
    requires n >= 1 && a <= Committee(n) && b <= Committee(n)
    requires |a| >= HighThreshold(n) && |b| >= HighThreshold(n)
    ensures |a * b| >= 2 * HighThreshold(n) - n
    ensures 2 * HighThreshold(n) - n == LowThreshold(n) <==> n % 3 == 1
  {
    MembersBound(a + b, n);
    assert |a + b| == |a| + |b| - |a * b|;
  }

  lemma TimesSucc(t: int, k: int, k': int)
    requires k <= k' <= k + 1
    ensures t * k' == t * k + if k' == k then 0 else t
  {}

  lemma AtLeastOnce(t: int, k: int)
    requires t >= 0 && k >= 1
    ensures t * k >= t
  {
    assert t * k == t + t * (k - 1);
  }
}
