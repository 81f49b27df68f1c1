/** Leader election: elects are counted per round; a quorum reveals the round's leader from
    the combined threshold signature, which is an input of the model. */
module Elector {
  import opened Types
  import opened Quorum
  import opened Aggregator

  type Byte = b: int | 0 <= b < 256

  /** The number whose base-256 digits are `bytes`, most significant first. */
  ghost function BigEndian(bytes: seq<Byte>): nat {
    if bytes == [] then 0 else BigEndian(bytes[..|bytes| - 1]) * 256 + bytes[|bytes| - 1]
  }

  /** Folds the first four signature bytes into a seed, reduced modulo the committee size. */
  method Reveal(sig: seq<Byte>, n: nat) returns (leader: NodeID)
    requires |sig| >= 4 && n >= 1
    ensures leader == BigEndian(sig[..4]) % n && 0 <= leader < n
    ensures leader == (((sig[0] as int * 256 + sig[1]) * 256 + sig[2]) * 256 + sig[3]) % n
  {
    var seed := 0;
    for i := 0 to 4
      invariant seed == BigEndian(sig[..i])
    {
      assert sig[..i + 1][..i] == sig[..i];
      seed := seed * 256 + sig[i];
    }
    FourBytes(sig);
    leader := seed % n;
  }

  lemma FourBytes(sig: seq<Byte>)
    requires |sig| >= 4
    ensures BigEndian(sig[..4]) == ((sig[0] as int * 256 + sig[1]) * 256 + sig[2]) * 256 + sig[3]
  {
    assert sig[..4][..3] == sig[..3] && sig[..3][..2] == sig[..2] && sig[..2][..1] == sig[..1] && sig[..1][..0] == [];
    assert BigEndian(sig[..1]) == sig[0];
    assert BigEndian(sig[..2]) == sig[0] as int * 256 + sig[1];
    assert BigEndian(sig[..3]) == (sig[0] as int * 256 + sig[1]) * 256 + sig[2];
  }

  datatype Ballot = Ballot(leader: map<int, NodeID>, ag: Tally)

  /** An elect as delivered, with the outcome of combining the collected shares. */
  datatype Elect = Elect(author: NodeID, round: int, combined: Option<seq<Byte>>)

  ghost predicate WellSigned(e: Elect) {
    e.combined.Some? ==> |e.combined.value| >= 4
  }

  ghost function AfterAdd(b: Ballot, n: nat, e: Elect): Ballot
    requires n >= 1 && WellSigned(e)
  {
    var v := TallyAt(b.ag, e.round);
    var b1 := b.(ag := b.ag[e.round := Counted(v, n, e.author, e.author)]);
    if Ripe(Pushed(v, e.author, e.author), n) && e.combined.Some?
    then b1.(leader := b1.leader[e.round := BigEndian(e.combined.value[..4]) % n])
    else b1
  }

  /** A failed combination ends the handler before the leader is looked up. */
  ghost predicate Fails(b: Ballot, n: nat, e: Elect) {
    Ripe(Pushed(TallyAt(b.ag, e.round), e.author, e.author), n) && e.combined.None?
  }

  ghost function Announced(b: Ballot, n: nat, e: Elect): Option<CommitReq>
    requires n >= 1 && WellSigned(e)
  {
    var b1 := AfterAdd(b, n, e);
    if !Fails(b, n, e) && e.round in b1.leader then Some(CommitReq(b1.leader[e.round], e.round)) else None
  }

  ghost function AfterElect(b: Ballot, n: nat, e: Elect): Ballot
    requires n >= 1 && WellSigned(e)
  {
    var b1 := AfterAdd(b, n, e);
    if Announced(b, n, e).Some? then Ballot(b1.leader - {e.round}, b1.ag - {e.round}) else b1
  }

  class Elector {
    const n: nat
    var leader: map<int, NodeID>
    var ag: map<int, Aggregator<NodeID>>

    ghost var Repr: set<Aggregator<NodeID>>

    ghost predicate Valid()
      reads this, Repr
    {
      n >= 1 && ag.Values <= Repr && Separate(n, ag)
    }

    ghost function State(): Ballot
      reads this, Repr
      requires Valid()
    {
      Ballot(leader, TallyOf(ag))
    }

    constructor (n: nat)
      requires n >= 1
      ensures Valid() && fresh(Repr) && this.n == n && State() == Ballot(map[], map[])
    {
      this.n := n;
      leader := map[];
      ag := map[];
      Repr := {};
    }

    method Add(e: Elect) returns (failed: bool)
      requires Valid() && WellSigned(e)
      modifies this, Repr
      ensures Valid() && fresh(Repr - old(Repr))
      ensures State() == AfterAdd(old(State()), n, e)
      ensures failed <==> Fails(old(State()), n, e)
    {
      var next, quorum := Count(n, ag, e.round, e.author);
      ag := next;
      Repr := Repr + next.Values;
      if !quorum {
        return false;
      }
      if e.combined.None? {
        return true;
      }
      var id := Reveal(e.combined.value, n);
      leader := leader[e.round := id];
      return false;
    }

    method TryGetLeader(round: int) returns (found: Option<NodeID>)
      ensures found == if round in leader then Some(leader[round]) else None
    {
      if round in leader {
        found := Some(leader[round]);
      } else {
        found := None;
      }
    }

    method RemoveBy(round: int)
      requires Valid()
      modifies this`leader, this`ag
      ensures Valid() && Repr == old(Repr)
      ensures State() == Ballot(old(State()).leader - {round}, old(State()).ag - {round})
    {
      leader := leader - {round};
      ag := ag - {round};
    }

    /** The core's handler for an incoming elect: what it forwards to the dag, if anything. */
    method HandleElect(e: Elect) returns (request: Option<CommitReq>)
      requires Valid() && WellSigned(e)
      modifies this, Repr
      ensures Valid() && fresh(Repr - old(Repr))
      ensures State() == AfterElect(old(State()), n, e)
      ensures request == Announced(old(State()), n, e)
    {
      request := None;
      var failed := Add(e);
      if failed {
        return;
      }
      var found := TryGetLeader(e.round);
      if found.Some? {
        request := Some(CommitReq(found.value, e.round));
        RemoveBy(e.round);
      }
    }
  }
}
