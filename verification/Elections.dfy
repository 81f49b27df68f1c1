/** How often a round's leader can be revealed over a whole run of the elector. */
module Elections {
  import opened Types
  import opened Quorum
  import opened Aggregator
  import opened Elector

  /** Peers are committee members, send at most one elect per round, and shares are long enough. */
  ghost predicate Proper(n: nat, es: seq<Elect>) {
    && (forall i :: 0 <= i < |es| ==> es[i].author in Committee(n) && WellSigned(es[i]))
    && (forall i, j :: 0 <= i < j < |es| ==> es[i].author != es[j].author || es[i].round != es[j].round)
  }

  lemma ProperTail(n: nat, es: seq<Elect>)
    requires Proper(n, es) && es != []
    ensures Proper(n, es[1..]) && WellSigned(es[0])
  {}

  ghost function Ballots(b: Ballot, n: nat, es: seq<Elect>): Ballot
    requires n >= 1 && Proper(n, es)
    decreases |es|
  {
    if es == [] then b else
      ProperTail(n, es);
      Ballots(AfterElect(b, n, es[0]), n, es[1..])
  }

  /** The number of commit requests for round `r` that the run sends to the dag. */
  ghost function Reveals(b: Ballot, n: nat, es: seq<Elect>, r: int): nat
    requires n >= 1 && Proper(n, es)
    decreases |es|
  {
    if es == [] then 0 else
      ProperTail(n, es);
      (if es[0].round == r && Announced(b, n, es[0]).Some? then 1 else 0)
      + Reveals(AfterElect(b, n, es[0]), n, es[1..], r)
  }

  /** The number of quorums for round `r` whose shares could not be combined. */
  ghost function Failures(b: Ballot, n: nat, es: seq<Elect>, r: int): nat
    requires n >= 1 && Proper(n, es)
    decreases |es|
  {
    if es == [] then 0 else
      ProperTail(n, es);
      (if es[0].round == r && Fails(b, n, es[0]) then 1 else 0)
      + Failures(AfterElect(b, n, es[0]), n, es[1..], r)
  }

  ghost function Voters(es: seq<Elect>, r: int): set<NodeID> {
    set e | e in es && e.round == r :: e.author
  }

  lemma VotersTail(n: nat, es: seq<Elect>, r: int)
    requires Proper(n, es) && es != []
    ensures |Voters(es, r)| == |Voters(es[1..], r)| + if es[0].round == r then 1 else 0
  {
    assert forall e :: e in es <==> e == es[0] || e in es[1..];
    if es[0].round == r {
      assert Voters(es, r) == Voters(es[1..], r) + {es[0].author};
      assert es[0].author !in Voters(es[1..], r);
    } else {
      assert Voters(es, r) == Voters(es[1..], r);
    }
  }

  lemma ElectCost(b: Ballot, n: nat, e: Elect, r: int)
    requires n >= 1 && WellSigned(e) && b.leader == map[]
    ensures AfterElect(b, n, e).leader == map[] && !(Announced(b, n, e).Some? && Fails(b, n, e))
    ensures |TallyAt(AfterElect(b, n, e).ag, r).items|
              + (if e.round == r && (Announced(b, n, e).Some? || Fails(b, n, e)) then HighThreshold(n) else 0)
         <= |TallyAt(b.ag, r).items| + (if e.round == r then 1 else 0)
  {}

  /** Revealing drops the counter and with it the memory of who voted, but each reveal, and each
      quorum whose shares fail to combine, still costs a threshold of distinct voters. */
  lemma {:induction false} RevealsCostVoters(b: Ballot, n: nat, es: seq<Elect>, r: int, t: int)
    requires n >= 1 && Proper(n, es) && b.leader == map[] && t == HighThreshold(n)
    ensures t * (Reveals(b, n, es, r) + Failures(b, n, es, r)) <= |TallyAt(b.ag, r).items| + |Voters(es, r)|
    decreases |es|
  {
    if es == [] {
    } else {
      ProperTail(n, es);
      ElectCost(b, n, es[0], r);
      VotersTail(n, es, r);
      var b' := AfterElect(b, n, es[0]);
      var k := Reveals(b', n, es[1..], r) + Failures(b', n, es[1..], r);
      RevealsCostVoters(b', n, es[1..], r, t);
      TimesSucc(t, k, Reveals(b, n, es, r) + Failures(b, n, es, r));
    }
  }

  lemma VotersBound(n: nat, es: seq<Elect>, r: int)
    requires Proper(n, es)
    ensures |Voters(es, r)| <= n
  {
    assert Voters(es, r) <= Committee(n);
    MembersBound(Voters(es, r), n);
  }

  /** A leader is announced exactly if the elect completes a quorum and the shares combine; it is
      the committee member the bytes name, and the round then starts over with no votes. Elects
      of one round leave the others alone. */
  lemma AnnouncedLeader(b: Ballot, n: nat, e: Elect)
    requires n >= 1 && WellSigned(e) && b.leader == map[]
    ensures AfterElect(b, n, e).leader == map[]
    ensures var c := Announced(b, n, e);
      c.Some? ==> e.combined.Some? && c.value.leader in Committee(n)
                  && c.value == CommitReq(BigEndian(e.combined.value[..4]) % n, e.round)
    ensures var v := TallyAt(b.ag, e.round);
      Announced(b, n, e).Some? <==>
        e.combined.Some? && |v.items| + (if e.author in v.used then 0 else 1) >= HighThreshold(n)
    ensures Announced(b, n, e).Some? ==> TallyAt(AfterElect(b, n, e).ag, e.round) == NoVotes()
    ensures forall r :: r != e.round ==> TallyAt(AfterElect(b, n, e).ag, r) == TallyAt(b.ag, r)
  {}

  // ---- two reveals when two quorums fit ----

  ghost function Wave(lo: nat, k: nat): (es: seq<Elect>)
    ensures |es| == k && forall i :: 0 <= i < k ==> es[i] == Elect(lo + i, 0, Some([0, 0, 0, 0]))
  {
    if k == 0 then [] else Wave(lo, k - 1) + [Elect(lo + k - 1, 0, Some([0, 0, 0, 0]))]
  }

  lemma WaveProper(n: nat, lo: nat, k: nat)
    requires lo + k <= n
    ensures Proper(n, Wave(lo, k))
  {}

  lemma {:induction false} RunAppend(b: Ballot, n: nat, xs: seq<Elect>, ys: seq<Elect>, r: int)
    requires n >= 1 && Proper(n, xs) && Proper(n, ys) && Proper(n, xs + ys)
    ensures Ballots(b, n, xs + ys) == Ballots(Ballots(b, n, xs), n, ys)
    ensures Reveals(b, n, xs + ys, r) == Reveals(b, n, xs, r) + Reveals(Ballots(b, n, xs), n, ys, r)
    decreases |xs|
  {
    if xs == [] {
      assert xs + ys == ys;
    } else {
      ProperTail(n, xs);
      assert (xs + ys)[1..] == xs[1..] + ys;
      ProperTail(n, xs + ys);
      RunAppend(AfterElect(b, n, xs[0]), n, xs[1..], ys, r);
    }
  }

  lemma {:induction false} WaveRun(n: nat, lo: nat, k: nat)
    requires n >= 1 && lo + k <= n && k <= HighThreshold(n)
    ensures Proper(n, Wave(lo, k))
    ensures var b := Ballots(Ballot(map[], map[]), n, Wave(lo, k));
      if k < HighThreshold(n)
      then b.leader == map[] && |TallyAt(b.ag, 0).items| == k && Reveals(Ballot(map[], map[]), n, Wave(lo, k), 0) == 0
           && (forall a :: a in TallyAt(b.ag, 0).used ==> a < lo + k) && b.ag.Keys <= {0}
      else b == Ballot(map[], map[]) && Reveals(Ballot(map[], map[]), n, Wave(lo, k), 0) == 1
  {
    WaveProper(n, lo, k);
    TwoQuorumsFit(n);
    if k == 0 {
    } else {
      WaveRun(n, lo, k - 1);
      var last := [Elect(lo + k - 1, 0, Some([0, 0, 0, 0]))];
      var b0 := Ballot(map[], map[]);
      WaveProper(n, lo, k - 1);
      assert Proper(n, last);
      RunAppend(b0, n, Wave(lo, k - 1), last, 0);
      var b := Ballots(b0, n, Wave(lo, k - 1));
      assert last[1..] == [];
      assert Ballots(b, n, last) == AfterElect(b, n, last[0]);
    }
  }

  lemma OneReveal(n: nat, es: seq<Elect>, r: int)
    requires n >= 1 && n !in {2, 3, 6} && Proper(n, es)
    ensures Reveals(Ballot(map[], map[]), n, es, r) + Failures(Ballot(map[], map[]), n, es, r) <= 1
  {
    var b0, t := Ballot(map[], map[]), HighThreshold(n);
    TwoQuorumsFit(n);
    RevealsCostVoters(b0, n, es, r, t);
    VotersBound(n, es, r);
    TwiceFits(t, Reveals(b0, n, es, r) + Failures(b0, n, es, r), n);
  }

  /** A failed combination spends the quorum for good: the round's leader is never revealed. */
  lemma FailedRoundSilent(n: nat, es: seq<Elect>, r: int)
    requires n >= 1 && n !in {2, 3, 6} && Proper(n, es)
    ensures Failures(Ballot(map[], map[]), n, es, r) >= 1 ==> Reveals(Ballot(map[], map[]), n, es, r) == 0
  {
    OneReveal(n, es, r);
  }

  lemma TwoReveals(n: nat, t: nat) returns (es: seq<Elect>)
    requires n >= 1 && t == HighThreshold(n) && 2 * t <= n
    ensures Proper(n, es) && Reveals(Ballot(map[], map[]), n, es, 0) == 2
  {
    WaveRun(n, 0, t);
    WaveRun(n, t, t);
    TwoWaves(t);
    WaveProper(n, 0, 2 * t);
    es := Wave(0, t) + Wave(t, t);
    RunAppend(Ballot(map[], map[]), n, Wave(0, t), Wave(t, t), 0);
  }

  lemma TwoWaves(t: nat)
    ensures Wave(0, t) + Wave(t, t) == Wave(0, 2 * t)
  {}

  // ---- which requests reach the dag ----

  /** The commit requests a run of the elector makes, in order. */
  ghost function Announcements(b: Ballot, n: nat, es: seq<Elect>): seq<CommitReq>
    requires n >= 1 && Proper(n, es)
    decreases |es|
  {
    if es == [] then [] else
      ProperTail(n, es);
      var c := Announced(b, n, es[0]);
      (if c.Some? then [c.value] else []) + Announcements(AfterElect(b, n, es[0]), n, es[1..])
  }

  lemma {:induction false} AnnouncedOnce(b: Ballot, n: nat, es: seq<Elect>, i: nat)
    requires n >= 1 && Proper(n, es) && i < |Announcements(b, n, es)|
    ensures Reveals(b, n, es, Announcements(b, n, es)[i].round) >= 1
    decreases |es|
  {
    if es == [] {
    } else {
      ProperTail(n, es);
      var c := Announced(b, n, es[0]);
      if !(c.Some? && i == 0) {
        AnnouncedOnce(AfterElect(b, n, es[0]), n, es[1..], if c.Some? then i - 1 else i);
      }
    }
  }

  lemma AnnouncedRound(b: Ballot, n: nat, e: Elect)
    requires n >= 1 && WellSigned(e)
    ensures Announced(b, n, e).Some? ==> Announced(b, n, e).value.round == e.round
  {}

  lemma {:induction false} AnnouncedTwice(b: Ballot, n: nat, es: seq<Elect>, i: nat, j: nat)
    requires n >= 1 && Proper(n, es) && i < j < |Announcements(b, n, es)|
    requires Announcements(b, n, es)[i].round == Announcements(b, n, es)[j].round
    ensures Reveals(b, n, es, Announcements(b, n, es)[i].round) >= 2
    decreases |es|
  {
    hide AfterElect, Announced, Proper;
    if es == [] {
    } else {
      ProperTail(n, es);
      AnnouncedRound(b, n, es[0]);
      var c, b' := Announced(b, n, es[0]), AfterElect(b, n, es[0]);
      if c.None? {
        AnnouncedTwice(b', n, es[1..], i, j);
      } else if i == 0 {
        AnnouncedOnce(b', n, es[1..], j - 1);
      } else {
        AnnouncedTwice(b', n, es[1..], i - 1, j - 1);
      }
    }
  }

  /** Fewer than a threshold of members, those in `bad`, elect a negative or odd round. */
  ghost predicate MostlyEven(n: nat, es: seq<Elect>, bad: set<NodeID>) {
    && |bad| < HighThreshold(n)
    && forall i :: 0 <= i < |es| && es[i].author !in bad ==> es[i].round >= 0 && es[i].round % 2 == 0
  }

  /** The dag is asked for even rounds only, each at most once. */
  lemma DistinctEvenRounds(n: nat, es: seq<Elect>, bad: set<NodeID>)
    requires n >= 1 && n !in {2, 3, 6} && Proper(n, es) && MostlyEven(n, es, bad)
    ensures var cs := Announcements(Ballot(map[], map[]), n, es);
      && (forall i :: 0 <= i < |cs| ==> cs[i].round >= 0 && cs[i].round % 2 == 0)
      && (forall i, j :: 0 <= i < j < |cs| ==> cs[i].round != cs[j].round)
  {
    hide Announcements, Reveals, Failures, Proper;
    var b0 := Ballot(map[], map[]);
    var cs := Announcements(b0, n, es);
    forall i | 0 <= i < |cs| ensures cs[i].round >= 0 && cs[i].round % 2 == 0 {
      AnnouncedOnce(b0, n, es, i);
      OddUnannounced(n, es, bad, cs[i].round);
    }
    forall i, j | 0 <= i < j < |cs| ensures cs[i].round != cs[j].round {
      OneReveal(n, es, cs[i].round);
      if cs[i].round == cs[j].round {
        AnnouncedTwice(b0, n, es, i, j);
        assert false;
      }
    }
  }

  lemma OddUnannounced(n: nat, es: seq<Elect>, bad: set<NodeID>, r: int)
    requires n >= 1 && Proper(n, es) && MostlyEven(n, es, bad)
    ensures Reveals(Ballot(map[], map[]), n, es, r) >= 1 ==> r >= 0 && r % 2 == 0
  {
    hide Reveals, Failures, Proper;
    var b0, t := Ballot(map[], map[]), HighThreshold(n);
    var k := Reveals(b0, n, es, r) + Failures(b0, n, es, r);
    if Reveals(b0, n, es, r) >= 1 && (r < 0 || r % 2 != 0) {
      assert Voters(es, r) <= bad;
      SubsetSize(Voters(es, r), bad);
      RevealsCostVoters(b0, n, es, r, t);
      AtLeastOnce(t, k);
      assert false;
    }
  }

  /** At most one commit request per round reaches the dag, in every run, if and only if the
      committee does not have 2, 3 or 6 members. */
  lemma OneRevealExact(n: nat)
    requires n >= 1
    ensures (forall es, r :: Proper(n, es) ==> Reveals(Ballot(map[], map[]), n, es, r) <= 1) <==> n !in {2, 3, 6}
  {
    TwoQuorumsFit(n);
    if n in {2, 3, 6} {
      var es := TwoReveals(n, HighThreshold(n));
    } else {
      forall es, r | Proper(n, es) ensures Reveals(Ballot(map[], map[]), n, es, r) <= 1 {
        OneReveal(n, es, r);
      }
    }
  }
}
