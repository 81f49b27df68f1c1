/** The proposing side of the core: echoes are counted per height; a quorum for one height
    makes the node propose the next. */
module Proposer {
  import opened Types
  import opened Quorum
  import opened Aggregator

  /** What a proposal puts on the network: the block, and an elect on entering an odd round. */
  datatype Proposal = Proposal(block: Block, elect: Option<int>)

  /** A reply of more than one reference means a quorum: the block opens the next round. */
  function NextHeader(me: NodeID, height: int, round: int, firstRefH: int, entered: bool): Header {
    if entered then Header(Slot(me, height), round + 1, height) else Header(Slot(me, height), round, firstRefH)
  }

  function ElectOf(round: int, entered: bool): Option<int> {
    if entered && round >= 0 && round % 2 == 0 then Some(round) else None
  }

  method GenerateBlock(me: NodeID, height: int, round: int, oldFirstRefH: int, ref: seq<Header>)
    returns (p: Proposal)
    ensures p.block == Block(NextHeader(me, height, round, oldFirstRefH, |ref| > 1), ref)
    ensures p.elect == ElectOf(round, |ref| > 1)
    ensures p.block.header == if |ref| > 1 then Header(Slot(me, height), round + 1, height)
                              else Header(Slot(me, height), round, oldFirstRefH)
    ensures p.elect == if |ref| > 1 && round >= 0 && round % 2 == 0 then Some(round) else None
  {
    var firstRefH, r, elect := oldFirstRefH, round, None;
    if |ref| > 1 {
      firstRefH := height;
      r := r + 1;
      if r > 0 && r % 2 == 1 {
        elect := Some(r - 1);
      }
    }
    p := Proposal(Block(Header(Slot(me, height), r, firstRefH), ref), elect);
  }

  function AfterEcho(t: Tally, n: nat, author: NodeID, h: Header): Tally
    requires n >= 1
  {
    t[h.slot.height := Counted(TallyAt(t, h.slot.height), n, author, author)]
  }

  predicate Fires(t: Tally, n: nat, author: NodeID, h: Header) {
    Ripe(Pushed(TallyAt(t, h.slot.height), author, author), n)
  }

  class Proposer {
    const n: nat
    const me: NodeID
    var voteAg: map<int, Aggregator<NodeID>>
    ghost var Repr: set<Aggregator<NodeID>>

    ghost predicate Valid()
      reads this, Repr
    {
      n >= 1 && voteAg.Values <= Repr && Separate(n, voteAg)
    }

    ghost function State(): Tally
      reads this, Repr
      requires Valid()
    {
      TallyOf(voteAg)
    }

    constructor (n: nat, me: NodeID)
      requires n >= 1
      ensures Valid() && fresh(Repr) && this.n == n && this.me == me && State() == map[]
    {
      this.n := n;
      this.me := me;
      voteAg := map[];
      Repr := {};
    }

    /** `ref` is the dag's answer to the reference request a proposal makes. */
    method HandleEcho(author: NodeID, header: Header, ref: seq<Header>) returns (p: Option<Proposal>)
      requires Valid()
      modifies this, Repr
      ensures Valid() && fresh(Repr - old(Repr))
      ensures State() == AfterEcho(old(State()), n, author, header)
      ensures p.Some? <==> Fires(old(State()), n, author, header)
      ensures p.Some? ==>
        && p.value.block == Block(NextHeader(me, header.slot.height + 1, header.round, header.firstRefH, |ref| > 1), ref)
        && p.value.elect == ElectOf(header.round, |ref| > 1)
    {
      var height := header.slot.height;
      var next, quorum := Count(n, voteAg, height, author);
      voteAg := next;
      Repr := Repr + next.Values;
      if quorum {
        var next := GenerateBlock(me, height + 1, header.round, header.firstRefH, ref);
        p := Some(next);
      } else {
        p := None;
      }
    }
  }

  // ---- whole runs of one node ----

  /** `headers` are the node's proposals so far, oldest first; `elects` the elects it sent. */
  datatype Node = Node(tally: Tally, headers: seq<Header>, elects: seq<int>)

  datatype Echo = Echo(author: NodeID, header: Header, entered: bool)

  function Fresh(me: NodeID): Node {
    Node(map[], [Header(Slot(me, 0), 0, 0)], [])
  }

  ghost function Step(nd: Node, n: nat, me: NodeID, e: Echo): Node
    requires n >= 1
  {
    var h := e.header;
    var tally := AfterEcho(nd.tally, n, e.author, h);
    if !Fires(nd.tally, n, e.author, h) then nd.(tally := tally)
    else
      var elect := ElectOf(h.round, e.entered);
      Node(tally,
           nd.headers + [NextHeader(me, h.slot.height + 1, h.round, h.firstRefH, e.entered)],
           if elect.Some? then nd.elects + [elect.value] else nd.elects)
  }

  /** Echoes come from committee members and carry a header the node proposed. */
  ghost predicate Runs(nd: Node, n: nat, me: NodeID, es: seq<Echo>)
    requires n >= 1
    decreases |es|
  {
    es == [] || (
      && es[0].author in Committee(n) && es[0].header in nd.headers
      && Runs(Step(nd, n, me, es[0]), n, me, es[1..]))
  }

  ghost function After(nd: Node, n: nat, me: NodeID, es: seq<Echo>): Node
    requires n >= 1
    decreases |es|
  {
    if es == [] then nd else After(Step(nd, n, me, es[0]), n, me, es[1..])
  }

  // ---- the chain of headers an honest node proposes ----

  ghost predicate Follows(me: NodeID, h: Header, k: Header) {
    k == NextHeader(me, h.slot.height + 1, h.round, h.firstRefH, true)
    || k == NextHeader(me, h.slot.height + 1, h.round, h.firstRefH, false)
  }

  /** One header per height 0, 1, 2, ..., each continuing its predecessor's round or opening
      the next one. */
  ghost predicate Chain(me: NodeID, hs: seq<Header>) {
    && |hs| > 0 && hs[0] == Header(Slot(me, 0), 0, 0)
    && (forall i :: 0 <= i < |hs| - 1 ==> Follows(me, hs[i], hs[i + 1]))
  }

  lemma {:induction false} ChainAt(me: NodeID, hs: seq<Header>, i: nat)
    requires Chain(me, hs) && i < |hs|
    ensures hs[i].slot == Slot(me, i) && 0 <= hs[i].firstRefH <= i && hs[i].round >= 0
  {
    if i == 0 {
    } else {
      ChainAt(me, hs, i - 1);
      assert Follows(me, hs[i - 1], hs[i - 1 + 1]);
    }
  }

  /** All heights from a block's `firstRefH` up to the block share its round. */
  lemma {:induction false} ChainRounds(me: NodeID, hs: seq<Header>, i: nat, j: nat)
    requires Chain(me, hs) && i <= j < |hs| && hs[j].firstRefH <= i
    ensures hs[i].round == hs[j].round && hs[i].firstRefH == hs[j].firstRefH
    decreases j
  {
    if i < j {
      assert Follows(me, hs[j - 1], hs[j - 1 + 1]);
      ChainAt(me, hs, j - 1);
      ChainRounds(me, hs, i, j - 1);
    }
  }

  /** A block stays in its predecessor's round, or is the first block of the next round. */
  ghost predicate SameOrNext(h: Header, k: Header) {
    || (k.round == h.round && k.firstRefH == h.firstRefH)
    || (k.round == h.round + 1 && k.firstRefH == k.slot.height)
  }

  // ---- no self-equivocation ----

  ghost predicate Quorate(nd: Node, n: nat, h: int) {
    && TallyAt(nd.tally, h).used <= Committee(n)
    && |TallyAt(nd.tally, h).used| == |TallyAt(nd.tally, h).items| + (if h + 1 < |nd.headers| then HighThreshold(n) else 0)
    && (h + 1 >= |nd.headers| ==> |TallyAt(nd.tally, h).items| < HighThreshold(n))
  }

  /** The elects sent are 0, 2, 4, ..., one for each even round the node has left. */
  ghost predicate ElectsOk(nd: Node)
    requires |nd.headers| > 0
  {
    && |nd.elects| == (nd.headers[|nd.headers| - 1].round + 1) / 2
    && forall i :: 0 <= i < |nd.elects| ==> nd.elects[i] == 2 * i
  }

  ghost predicate Inv(nd: Node, n: nat, me: NodeID) {
    && Chain(me, nd.headers)
    && (forall h :: 0 <= h < |nd.headers| ==> Quorate(nd, n, h))
    && (forall h :: h in nd.tally ==> 0 <= h < |nd.headers|)
    && ElectsOk(nd)
  }

  lemma FreshInv(n: nat, me: NodeID)
    requires n >= 1
    ensures Inv(Fresh(me), n, me)
  {
    TwoQuorumsFit(n);
  }

  lemma EchoedHeader(nd: Node, n: nat, me: NodeID, h: Header) returns (i: nat)
    requires Inv(nd, n, me) && h in nd.headers
    ensures i < |nd.headers| && nd.headers[i] == h && h.slot == Slot(me, i) && h.round >= 0
  {
    i :| 0 <= i < |nd.headers| && nd.headers[i] == h;
    ChainAt(me, nd.headers, i);
  }

  lemma CountedSizes(v: Votes<NodeID>, n: nat, a: NodeID)
    requires n >= 1
    ensures var w := Counted(v, n, a, a);
      && w.used == v.used + {a}
      && |w.used| - |w.items| == |v.used| - |v.items| + (if Ripe(Pushed(v, a, a), n) then HighThreshold(n) else 0)
    ensures a in v.used ==> Pushed(v, a, a) == v
  {
    if a in v.used {
      assert v.used + {a} == v.used;
    }
  }

  /** A height that already led to a proposal cannot gather a second quorum. */
  lemma FiresOnlyAtTop(nd: Node, n: nat, me: NodeID, e: Echo, i: nat)
    requires n >= 1 && n !in {2, 3, 6} && Inv(nd, n, me) && e.author in Committee(n)
    requires i < |nd.headers| && e.header == nd.headers[i] && e.header.slot == Slot(me, i)
    ensures Fires(nd.tally, n, e.author, e.header) ==> i + 1 == |nd.headers|
  {
    var v := TallyAt(nd.tally, i);
    assert Quorate(nd, n, i);
    CountedSizes(v, n, e.author);
    MembersBound(Pushed(v, e.author, e.author).used, n);
    TwoQuorumsFit(n);
  }

  lemma StepQuorate(nd: Node, n: nat, me: NodeID, e: Echo, i: nat, h: nat)
    requires n >= 1 && n !in {2, 3, 6} && Inv(nd, n, me) && e.author in Committee(n)
    requires i < |nd.headers| && e.header == nd.headers[i] && e.header.slot == Slot(me, i)
    requires h < |Step(nd, n, me, e).headers|
    ensures Quorate(Step(nd, n, me, e), n, h)
  {
    TwoQuorumsFit(n);
    FiresOnlyAtTop(nd, n, me, e, i);
    if h < |nd.headers| {
      assert Quorate(nd, n, h);
    }
    CountedSizes(TallyAt(nd.tally, i), n, e.author);
  }

  lemma StepInv(nd: Node, n: nat, me: NodeID, e: Echo)
    requires n >= 1 && n !in {2, 3, 6} && Inv(nd, n, me)
    requires e.author in Committee(n) && e.header in nd.headers
    ensures Inv(Step(nd, n, me, e), n, me)
  {
    var i := EchoedHeader(nd, n, me, e.header);
    var nd' := Step(nd, n, me, e);
    forall h | 0 <= h < |nd'.headers| ensures Quorate(nd', n, h) {
      StepQuorate(nd, n, me, e, i, h);
    }
    hide Quorate, Counted;
    if Fires(nd.tally, n, e.author, e.header) {
      FiresOnlyAtTop(nd, n, me, e, i);
      ChainSnoc(nd, me, e, nd'.tally);
    }
  }

  /** Proposing on top of the last header extends the chain and the list of elects. */
  lemma ChainSnoc(nd: Node, me: NodeID, e: Echo, tally: Tally)
    requires Chain(me, nd.headers) && ElectsOk(nd) && e.header == nd.headers[|nd.headers| - 1] && e.header.round >= 0
    ensures var h, elect := e.header, ElectOf(e.header.round, e.entered);
      var nd' := Node(tally,
           nd.headers + [NextHeader(me, h.slot.height + 1, h.round, h.firstRefH, e.entered)],
           if elect.Some? then nd.elects + [elect.value] else nd.elects);
      Chain(me, nd'.headers) && ElectsOk(nd')
  {
    var h := e.header;
    assert Follows(me, h, NextHeader(me, h.slot.height + 1, h.round, h.firstRefH, e.entered));
  }

  lemma {:induction false} RunInv(nd: Node, n: nat, me: NodeID, es: seq<Echo>)
    requires n >= 1 && n !in {2, 3, 6} && Inv(nd, n, me) && Runs(nd, n, me, es)
    ensures Inv(After(nd, n, me, es), n, me)
    decreases |es|
  {
    if es == [] {
    } else {
      StepInv(nd, n, me, es[0]);
      RunInv(Step(nd, n, me, es[0]), n, me, es[1..]);
    }
  }

  /** No self-equivocation: along every run the node proposes heights 0, 1, 2, ... once each,
      height h+1 only after a threshold of distinct members echoed height h; its headers form
      a chain, and it sends one elect for each even round it leaves, in order, and no other. */
  lemma NoSelfEquivocation(n: nat, me: NodeID, es: seq<Echo>)
    requires n >= 1 && n !in {2, 3, 6} && Runs(Fresh(me), n, me, es)
    ensures var nd := After(Fresh(me), n, me, es);
      && Chain(me, nd.headers)
      && (forall i :: 0 <= i < |nd.headers| ==> nd.headers[i].slot == Slot(me, i))
      && (forall i :: 0 <= i < |nd.headers| - 1 ==> SameOrNext(nd.headers[i], nd.headers[i + 1]))
      && (forall i :: 0 <= i < |nd.headers| - 1 ==>
            TallyAt(nd.tally, i).used <= Committee(n) && |TallyAt(nd.tally, i).used| >= HighThreshold(n))
      && ElectsOk(nd)
  {
    var nd := After(Fresh(me), n, me, es);
    FreshInv(n, me);
    RunInv(Fresh(me), n, me, es);
    forall i | 0 <= i < |nd.headers| ensures nd.headers[i].slot == Slot(me, i) {
      ChainAt(me, nd.headers, i);
    }
    forall i | 0 <= i < |nd.headers| - 1 ensures SameOrNext(nd.headers[i], nd.headers[i + 1]) {
      assert Follows(me, nd.headers[i], nd.headers[i + 1]);
    }
    forall i | 0 <= i < |nd.headers| - 1
      ensures TallyAt(nd.tally, i).used <= Committee(n) && |TallyAt(nd.tally, i).used| >= HighThreshold(n)
    {
      assert Quorate(nd, n, i);
    }
  }

  // ---- equivocation when two quorums fit ----

  ghost function Wave(me: NodeID, k: nat): (es: seq<Echo>)
    ensures |es| == k
  {
    if k == 0 then [] else Wave(me, k - 1) + [Echo(k - 1, Header(Slot(me, 0), 0, 0), false)]
  }

  lemma {:induction false} RunSnoc(nd: Node, n: nat, me: NodeID, es: seq<Echo>, e: Echo)
    requires n >= 1 && Runs(nd, n, me, es)
    requires e.author in Committee(n) && e.header in After(nd, n, me, es).headers
    ensures Runs(nd, n, me, es + [e])
    ensures After(nd, n, me, es + [e]) == Step(After(nd, n, me, es), n, me, e)
    decreases |es|
  {
    if es == [] {
      assert es + [e] == [e];
      assert [e][1..] == [];
    } else {
      RunSnoc(Step(nd, n, me, es[0]), n, me, es[1..], e);
      assert (es + [e])[1..] == es[1..] + [e];
    }
  }

  /** After k echoes for height 0, `k / t` proposals for height 1 were made. */
  ghost predicate WaveState(nd: Node, me: NodeID, t: nat, k: nat) {
    var made := if k < t then 0 else if k < 2 * t then 1 else 2;
    var v := TallyAt(nd.tally, 0);
    && v.used == Committee(k)
    && |v.items| == (if k < t then k else if k < 2 * t then k - t else k - 2 * t)
    && |nd.headers| == 1 + made && nd.headers[0] == Header(Slot(me, 0), 0, 0)
    && forall i :: 1 <= i <= made ==> nd.headers[i] == Header(Slot(me, 1), 0, 0)
  }

  lemma WaveStep(nd: Node, n: nat, me: NodeID, t: nat, k: nat)
    requires n >= 1 && t == HighThreshold(n) && t >= 1 && k < 2 * t && WaveState(nd, me, t, k)
    ensures WaveState(Step(nd, n, me, Echo(k, Header(Slot(me, 0), 0, 0), false)), me, t, k + 1)
  {
    var v := TallyAt(nd.tally, 0);
    assert k !in v.used;
    assert Pushed(v, k, k).used == Committee(k + 1);
  }

  lemma {:induction false} WaveRun(n: nat, me: NodeID, t: nat, k: nat)
    requires n >= 1 && t == HighThreshold(n) && k <= 2 * t <= n
    ensures Runs(Fresh(me), n, me, Wave(me, k))
    ensures WaveState(After(Fresh(me), n, me, Wave(me, k)), me, t, k)
  {
    TwoQuorumsFit(n);
    if k == 0 {
    } else {
      WaveRun(n, me, t, k - 1);
      var nd := After(Fresh(me), n, me, Wave(me, k - 1));
      assert nd.headers[0] in nd.headers;
      WaveStep(nd, n, me, t, k - 1);
      RunSnoc(Fresh(me), n, me, Wave(me, k - 1), Echo(k - 1, Header(Slot(me, 0), 0, 0), false));
    }
  }

  ghost predicate Equivocates(nd: Node) {
    exists i, j :: 0 <= i < j < |nd.headers| && nd.headers[i].slot == nd.headers[j].slot
  }

  lemma Equivocation(n: nat, me: NodeID, t: nat) returns (es: seq<Echo>)
    requires n >= 1 && t == HighThreshold(n) && 2 * t <= n
    ensures Runs(Fresh(me), n, me, es) && Equivocates(After(Fresh(me), n, me, es))
  {
    WaveRun(n, me, t, 2 * t);
    es := Wave(me, 2 * t);
    var nd := After(Fresh(me), n, me, es);
    TwoQuorumsFit(n);
    assert nd.headers[1].slot == nd.headers[2].slot;
  }

  ghost predicate NeverEquivocates(n: nat, me: NodeID)
    requires n >= 1
  {
    forall es :: Runs(Fresh(me), n, me, es) ==> !Equivocates(After(Fresh(me), n, me, es))
  }

  /** A node never proposes one slot twice, in any run, if and only if the committee does not
      have 2, 3 or 6 members. */
  lemma NoEquivocationExact(n: nat, me: NodeID)
    requires n >= 1
    ensures NeverEquivocates(n, me) <==> n !in {2, 3, 6}
  {
    TwoQuorumsFit(n);
    if n in {2, 3, 6} {
      var es := Equivocation(n, me, HighThreshold(n));
      assert !NeverEquivocates(n, me);
    } else {
      forall es | Runs(Fresh(me), n, me, es) ensures !Equivocates(After(Fresh(me), n, me, es)) {
        NoSelfEquivocation(n, me, es);
      }
    }
  }
}
