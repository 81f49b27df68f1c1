/** Collecting references for a new block, and what the reply's length says about a quorum. */
module References {
  import opened Types
  import opened Store
  import opened Quorum

  /** A latest block counts towards round entry: it is of a later round, or of this one with
      enough blocks above its round's first (two in even rounds, one in odd). */
  predicate Qualifies(round: int, h: Header) {
    || h.round > round
    || (h.round == round && round % 2 == 0 && h.slot.height - h.firstRefH >= 2)
    || (h.round == round && round > 0 && round % 2 == 1 && h.slot.height - h.firstRefH >= 1)
  }

  ghost function LatestHeader(g: Graph, a: NodeID): Option<Header> {
    var top := Top(g, a, Latest);
    if top.Some? then Some(g[Slot(a, top.value)].header) else None
  }

  /** The qualified latest headers of authors 0 .. k-1, in author order. */
  ghost function Qualified(g: Graph, round: int, k: nat): seq<Header> {
    if k == 0 then []
    else
      var h := LatestHeader(g, k - 1);
      Qualified(g, round, k - 1) + if h.Some? && Qualifies(round, h.value) then [h.value] else []
  }

  ghost function RefReply(g: Graph, n: nat, me: NodeID, round: int): seq<Header> {
    var q, own := Qualified(g, round, n), LatestHeader(g, me);
    if |q| < HighThreshold(n) && own.Some? then [own.value] else q
  }

  /** The list has one header per author, and holds exactly the qualified latest headers. */
  lemma {:induction false} QualifiedExact(g: Graph, round: int, k: nat)
    requires Keyed(g)
    ensures forall i, j :: 0 <= i < j < |Qualified(g, round, k)| ==>
              Qualified(g, round, k)[i].slot.author < Qualified(g, round, k)[j].slot.author
    ensures forall h :: h in Qualified(g, round, k) <==>
              0 <= h.slot.author < k && LatestHeader(g, h.slot.author) == Some(h) && Qualifies(round, h)
  {
    if k == 0 {
    } else {
      QualifiedExact(g, round, k - 1);
      var pre := Qualified(g, round, k - 1);
      assert forall i :: 0 <= i < |pre| ==> pre[i] in pre;
      var h := LatestHeader(g, k - 1);
      assert h.Some? ==> h.value.slot.author == k - 1;
    }
  }

  /** Round entry. The proposer takes a reply longer than one header for a quorum. That test
      is right if and only if neither corner case holds: a one-member quorum (only possible
      when the threshold is one), or an own line already emptied by a commit while between two
      and threshold-minus-one authors qualify. */
  lemma QuorumTestExact(g: Graph, n: nat, me: NodeID, round: int)
    ensures var q, quorum := |Qualified(g, round, n)|, HighThreshold(n);
      (|RefReply(g, n, me, round)| > 1 <==> q >= quorum) <==>
      (!(quorum == 1 && q == 1) && !(LatestHeader(g, me).None? && 2 <= q < quorum))
  {}

  /** For committees of four or more and a non-empty own line the reply is the own latest
      header alone, or headers of at least a threshold of distinct authors, each qualified. */
  lemma RoundEntryNeedsQuorum(g: Graph, n: nat, me: NodeID, round: int)
    requires Keyed(g) && n >= 4 && LatestHeader(g, me).Some?
    ensures var ref := RefReply(g, n, me, round);
      if |ref| > 1 then
        && (forall h :: h in ref ==> LatestHeader(g, h.slot.author) == Some(h) && Qualifies(round, h))
        && |AuthorsOf(ref)| >= HighThreshold(n) && AuthorsOf(ref) <= Committee(n)
      else ref == [LatestHeader(g, me).value] && |Qualified(g, round, n)| < HighThreshold(n)
  {
    QualifiedExact(g, round, n);
    DistinctAuthors(Qualified(g, round, n));
  }

  /** Which headers a reply holds, in numbers: the latest header of each member that is of a later
      round, or of this round and two above the round's first block if the round is even, one
      above if it is odd. Below a threshold of those, the own latest header alone. */
  lemma ReplyExact(g: Graph, n: nat, me: NodeID, round: int)
    requires Keyed(g)
    ensures var q, own, ref := Qualified(g, round, n), LatestHeader(g, me), RefReply(g, n, me, round);
      && (forall h :: h in q <==>
            && 0 <= h.slot.author < n && LatestHeader(g, h.slot.author) == Some(h)
            && (|| h.round > round
                || (h.round == round && round % 2 == 0 && h.slot.height >= h.firstRefH + 2)
                || (h.round == round && round % 2 == 1 && round > 0 && h.slot.height >= h.firstRefH + 1)))
      && ref == if |q| < HighThreshold(n) && own.Some? then [own.value] else q
  {
    QualifiedExact(g, round, n);
  }

  /** The next block references its author's previous one if and only if no quorum qualifies or
      the previous block is itself part of it. */
  lemma OwnHeaderReferenced(g: Graph, n: nat, me: NodeID, round: int)
    requires Keyed(g) && me in Committee(n) && LatestHeader(g, me).Some?
    ensures var own := LatestHeader(g, me).value;
      own in RefReply(g, n, me, round) <==> |Qualified(g, round, n)| < HighThreshold(n) || Qualifies(round, own)
  {
    QualifiedExact(g, round, n);
    assert LatestHeader(g, me).value.slot.author == me;
  }

  ghost function AuthorsOf(hs: seq<Header>): set<NodeID> {
    set h | h in hs :: h.slot.author
  }

  lemma {:induction false} DistinctAuthors(hs: seq<Header>)
    requires forall i, j :: 0 <= i < j < |hs| ==> hs[i].slot.author < hs[j].slot.author
    ensures |AuthorsOf(hs)| == |hs|
  {
    if hs == [] {
    } else {
      var k := |hs| - 1;
      DistinctAuthors(hs[..k]);
      assert hs == hs[..k] + [hs[k]];
      assert AuthorsOf(hs) == AuthorsOf(hs[..k]) + {hs[k].slot.author};
      assert hs[k].slot.author !in AuthorsOf(hs[..k]);
    }
  }
}
