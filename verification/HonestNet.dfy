/** Four members, none faulty, and one of them slow. Every block below is what the code proposes
    given some of the others, yet a commit puts one of them under the watermark without executing
    it, and the cleanup that follows lets a member enter a round without a quorum. These are the
    blocks that have arrived at one node; the elects for round 2 come from members whose later
    blocks have not arrived there yet. */
module HonestNet {
  import opened Types
  import opened CausalGraph
  import opened Anchors
  import opened Batches
  import opened Replay
  import opened Store
  import opened Quorum
  import opened References
  import opened Pipeline
  import opened Progress
  import opened Witnesses
  import P = Proposer

  // ---- blocks built by the proposer's rule ----

  /** The block at `s` is what its author proposes after its previous block, given the answer to
      a reference request over some of the blocks of `g`. */
  ghost predicate Proposed(g: Graph, n: nat, s: Slot)
    requires s in g
  {
    if s.height == 0 then g[s] == Block(Header(s, 0, 0), [])
    else exists view :: ProposedFrom(g, n, s, view)
  }

  ghost predicate ProposedFrom(g: Graph, n: nat, s: Slot, view: Graph)
    requires s in g
  {
    && (forall t :: t in view ==> t in g && view[t] == g[t])
    && Slot(s.author, s.height - 1) in g
    && var prev := g[Slot(s.author, s.height - 1)].header;
       var ref := RefReply(view, n, s.author, prev.round);
       && LatestHeader(view, s.author) == Some(prev)
       && g[s] == Block(P.NextHeader(s.author, s.height, prev.round, prev.firstRefH, |ref| > 1), ref)
  }

  // ---- the network ----

  /** Rounds 0, 1, 2 start at heights 0, 3, 5, except that member 3 is slow and has only its
      first block in round 0. */
  function Tip(a: NodeID): int {
    if a == 0 then 7 else if a == 3 then 2 else 4
  }

  predicate InNet(s: Slot) {
    0 <= s.author < 4 && 0 <= s.height <= Tip(s.author)
  }

  function Head(a: NodeID, h: int): Header {
    var s := Slot(a, h);
    if a == 3 then (if h == 0 then Header(s, 0, 0) else Header(s, 1, 1))
    else if h <= 2 then Header(s, 0, 0)
    else if h <= 4 then Header(s, 1, 3)
    else Header(s, 2, 5)
  }

  function EntersOne(): seq<Header> {
    [Head(0, 2), Head(1, 2), Head(2, 2)]
  }

  function EntersTwo(): seq<Header> {
    [Head(0, 4), Head(1, 4), Head(3, 2)]
  }

  function Content(s: Slot): Block {
    var head := Head(s.author, s.height);
    Block(head,
          if s.height == 0 then []
          else if head.firstRefH != s.height then [Head(s.author, s.height - 1)]
          else if head.round == 1 then EntersOne()
          else EntersTwo())
  }

  ghost function Net(): (g: Graph)
    ensures forall s :: s in g <==> InNet(s)
    ensures forall s :: s in g ==> g[s] == Content(s)
  {
    var slots := set a, h | 0 <= a < 4 && 0 <= h < 8 && InNet(Slot(a, h)) :: Slot(a, h);
    assert forall s :: InNet(s) ==> Slot(s.author, s.height) in slots;
    map s | s in slots :: Content(s)
  }

  // ---- every block is proposed by the rule ----

  lemma LatestIs(g: Graph, a: NodeID, h: int)
    requires Slot(a, h) in g && forall k :: Slot(a, k) in g ==> k <= h
    ensures LatestHeader(g, a) == Some(g[Slot(a, h)].header)
  {
    assert MeetsAt(g, a, Latest, h);
  }

  lemma LatestNone(g: Graph, a: NodeID)
    requires forall k :: Slot(a, k) !in g
    ensures LatestHeader(g, a) == None
  {}

  ghost function Share(g: Graph, round: int, a: NodeID): seq<Header> {
    var h := LatestHeader(g, a);
    if h.Some? && Qualifies(round, h.value) then [h.value] else []
  }

  lemma QualifiedOfFour(g: Graph, round: int)
    ensures Qualified(g, round, 4) == Share(g, round, 0) + Share(g, round, 1) + Share(g, round, 2) + Share(g, round, 3)
    ensures HighThreshold(4) == 3
  {
    hide LatestHeader, Qualifies;
    assert Qualified(g, round, 1) == Share(g, round, 0);
    assert Qualified(g, round, 2) == Qualified(g, round, 1) + Share(g, round, 1);
    assert Qualified(g, round, 3) == Qualified(g, round, 2) + Share(g, round, 2);
  }

  /** A block of the same round as its parent: only the own line is known. */
  lemma PlainProposed(s: Slot)
    requires InNet(s) && s.height > 0 && Head(s.author, s.height).firstRefH != s.height
    ensures ProposedFrom(Net(), 4, s, map[Slot(s.author, s.height - 1) := Content(Slot(s.author, s.height - 1))])
  {
    hide Net, LatestHeader, RefReply;
    var p := Slot(s.author, s.height - 1);
    PlainReply(p, Content(p));
  }

  lemma PlainReply(p: Slot, b: Block)
    requires 0 <= p.author < 4
    ensures LatestHeader(map[p := b], p.author) == Some(b.header)
    ensures RefReply(map[p := b], 4, p.author, b.header.round) == [b.header]
  {
    hide LatestHeader, Qualified, Qualifies;
    var view: Graph := map[p := b];
    LatestIs(view, p.author, p.height);
    forall a | a != p.author ensures Share(view, b.header.round, a) == [] {
      LatestNone(view, a);
    }
    QualifiedOfFour(view, b.header.round);
  }

  /** What is known when round 1 is entered: all of round 0. */
  ghost function RoundZero(): (g: Graph)
    ensures forall s :: s in g <==> InNet(s) && s.height <= ZeroTip(s.author)
    ensures forall s :: s in g ==> g[s] == Content(s)
  {
    map s | s in Net() && s.height <= ZeroTip(s.author) :: Content(s)
  }

  function ZeroTip(a: NodeID): int {
    if a == 3 then 0 else 2
  }

  lemma RoundZeroReply(me: NodeID)
    requires 0 <= me < 4
    ensures LatestHeader(RoundZero(), me) == Some(Head(me, ZeroTip(me)))
    ensures RefReply(RoundZero(), 4, me, 0) == EntersOne()
  {
    hide Net, RoundZero, LatestHeader, Content, Qualified;
    var g := RoundZero();
    LatestIs(g, 0, 2);
    LatestIs(g, 1, 2);
    LatestIs(g, 2, 2);
    LatestIs(g, 3, 0);
    Contents();
    QualifiedOfFour(g, 0);
    assert Share(g, 0, 0) + Share(g, 0, 1) + Share(g, 0, 2) + Share(g, 0, 3) == EntersOne();
  }

  lemma Contents()
    ensures forall s :: Content(s).header == Head(s.author, s.height)
  {}

  /** What member 0 knows when it enters round 2. */
  ghost function RoundOne(): (g: Graph)
    ensures forall s :: s in g <==> InNet(s) && s.height <= Cut(s.author) && s != Slot(0, 5)
    ensures forall s :: s in g ==> g[s] == Content(s)
  {
    map s | s in Net() && s.height <= Cut(s.author) && s != Slot(0, 5) :: Content(s)
  }

  function Cut(a: NodeID): int {
    if a == 0 then 5 else if a == 1 then 4 else 2
  }

  lemma RoundOneReply()
    ensures LatestHeader(RoundOne(), 0) == Some(Head(0, 4))
    ensures RefReply(RoundOne(), 4, 0, 1) == EntersTwo()
  {
    hide Net, RoundOne, LatestHeader, Content, Qualified;
    var g := RoundOne();
    LatestIs(g, 0, 4);
    LatestIs(g, 1, 4);
    LatestIs(g, 2, 2);
    LatestIs(g, 3, 2);
    Contents();
    QualifiedOfFour(g, 1);
    assert Share(g, 1, 0) + Share(g, 1, 1) + Share(g, 1, 2) + Share(g, 1, 3) == EntersTwo();
  }

  lemma NetProposed(s: Slot)
    requires s in Net()
    ensures Proposed(Net(), 4, s)
  {
    hide Net, RoundZero, RoundOne, ProposedFrom;
    if s.height > 0 {
      if Head(s.author, s.height).firstRefH != s.height {
        PlainProposed(s);
      } else if s == Slot(0, 5) {
        EntersTwoProposed();
      } else {
        EntersOneProposed(s);
      }
    }
  }

  lemma EntersOneProposed(s: Slot)
    requires InNet(s) && s.height == ZeroTip(s.author) + 1
    ensures ProposedFrom(Net(), 4, s, RoundZero())
  {
    hide Net, RoundZero, LatestHeader, RefReply;
    RoundZeroReply(s.author);
  }

  lemma EntersTwoProposed()
    ensures ProposedFrom(Net(), 4, Slot(0, 5), RoundOne())
  {
    hide Net, RoundOne, LatestHeader, RefReply;
    RoundOneReply();
  }

  // ---- the commit of round 2 ----

  ghost function Genesis(): Marks {
    map[0 := -1, 1 := -1, 2 := -1, 3 := -1]
  }

  /** Round 0 is led by the slow member, which has nothing to commit; round 2 by member 0. */
  ghost function Commit2(): SubmitReq {
    SubmitReq(Slot(0, 5), 2, map[0 := 3, 2 := 0])
  }

  ghost function History(): set<Slot> {
    set s | s in Net() && s.height <= Cut(s.author) && s != Slot(3, 0)
  }

  lemma HistoryClosed()
    ensures Closed(Net(), History())
  {
    hide Net, History;
    forall x, t | x in History() && x in Net() && Refs(Net()[x], t) && t in Net() ensures t in History() {
      RefsInHistory(x, t);
    }
  }

  lemma RefsInHistory(x: Slot, t: Slot)
    requires x in History() && x in Net() && Refs(Net()[x], t) && t in Net()
    ensures t in History()
  {
    hide Net;
  }

  lemma Reached(g: Graph, s: Slot)
    requires g == Net() && s in {Slot(0, 5), Slot(1, 4), Slot(2, 2), Slot(3, 2)}
    ensures s in Cone(g, Slot(0, 5))
  {
    var root := Slot(0, 5);
    ConeSelf(g, root);
    if s == Slot(1, 4) {
      assert g[root].refs[1].slot == s;
      ConeStep(g, root, root, s);
    } else if s != root {
      assert g[root].refs[2].slot == Slot(3, 2);
      ConeStep(g, root, root, Slot(3, 2));
      if s == Slot(2, 2) {
        assert g[Slot(3, 2)].refs[0].slot == Slot(3, 1);
        ConeStep(g, root, Slot(3, 2), Slot(3, 1));
        assert g[Slot(3, 1)].refs[2].slot == s;
        ConeStep(g, root, Slot(3, 1), s);
      }
    }
  }

  lemma NetLive()
    ensures Keyed(Net()) && (forall t :: t in Net() ==> !Committed(Genesis(), t)) && Live(Net(), Genesis()) == Net()
    ensures Complete(Net(), Genesis(), Slot(0, 5))
  {
    hide Net, InNet, Content, Genesis, Committed;
    NetAbove();
    assert Live(Net(), Genesis()) == Net();
    NetComplete(Net(), Genesis());
  }

  lemma NetAbove()
    ensures Keyed(Net()) && forall t :: t in Net() ==> !Committed(Genesis(), t)
  {
    hide Net;
  }

  lemma NetComplete(u: Graph, m: Marks)
    requires u == Net() && Live(u, m) == u
    ensures Complete(u, m, Slot(0, 5))
  {
    hide Net, Content, Committed;
    forall x, t | x in u && Refs(u[x], t) ensures t in u {
      RefsInNet(x, t);
    }
  }

  lemma RefsInNet(x: Slot, t: Slot)
    requires x in Net() && Refs(Net()[x], t)
    ensures t in Net()
  {
    hide Net;
  }

  /** The commit reaches the heights of `Cut` and misses the slow member's first block. */
  lemma NetMarks()
    ensures Keyed(Net())
    ensures forall a :: 0 <= a < 4 ==> MarkOf(CommitMarks(Net(), Genesis(), Commit2()), a) == Cut(a)
    ensures Slot(3, 0) !in CommitLog(Net(), Genesis(), Commit2())
  {
    hide Net, CommitLog, Pulled, Head, Content, InNet;
    NetLive();
    NetPulled();
    CommitWindow(Net(), Genesis(), Commit2());
    assert MarkOf(Genesis(), 0) == MarkOf(Genesis(), 1) == MarkOf(Genesis(), 2) == MarkOf(Genesis(), 3) == -1;
  }

  lemma NetPulled()
    ensures var p := Pulled(Net(), Genesis(), Slot(0, 5));
      p.Keys <= History() && forall a :: 0 <= a < 4 ==> Slot(a, Cut(a)) in p
  {
    hide Net, Cone, Content, Complete, History;
    NetLive();
    HistoryClosed();
    RootInHistory();
    ConeLeast(Net(), Slot(0, 5), History());
    forall a | 0 <= a < 4 ensures Slot(a, Cut(a)) in Pulled(Net(), Genesis(), Slot(0, 5)) {
      Reached(Net(), Slot(a, Cut(a)));
    }
  }

  lemma RootInHistory()
    ensures Slot(0, 5) in History()
  {}

  /** The request for round 0 is given up: its leader has no strong block. */
  lemma RequestZero(s: Sys) returns (s1: Sys)
    requires s == Loaded(Net(), Genesis())
    ensures Enabled(Net(), s, Request(CommitReq(3, 0))) && s1 == Apply(Net(), s, Request(CommitReq(3, 0)))
    ensures s1 == s.(store := s.store.(uncommitted := map[0 := 3]))
  {
    hide Net, AfterRequest, SubmissionOf, Top, Ready, Noted;
    RequestZeroStore(s.store);
    s1 := Apply(Net(), s, Request(CommitReq(3, 0)));
  }

  lemma RequestZeroStore(st: Store)
    requires st == Loaded(Net(), Genesis()).store
    ensures SubmissionOf(st, CommitReq(3, 0)) == None
    ensures AfterRequest(st, CommitReq(3, 0)) == st.(uncommitted := map[0 := 3])
  {
    hide Net, AfterRequest, SubmissionOf, Top;
    var c := CommitReq(3, 0);
    var st1 := Noted(st, c);
    NothingStrong();
    assert Ready(st1, 0);
    RequestOutcome(st, c, st1);
    assert st1.uncommitted == map[0 := 3];
  }

  lemma RequestTwo(s: Sys, s1: Sys) returns (s2: Sys)
    requires s == Loaded(Net(), Genesis()) && s1 == s.(store := s.store.(uncommitted := map[0 := 3]))
    ensures Enabled(Net(), s1, Request(CommitReq(0, 2))) && s2 == Apply(Net(), s1, Request(CommitReq(0, 2)))
    ensures Submitted(Net(), Genesis(), s2, Commit2()) && s2.store.pendingCommit.Some?
  {
    hide Net, AfterRequest, SubmissionOf, Top, Ready, Noted, Complete, Head, Live;
    NetLive();
    RequestTwoStore(s1.store);
    s2 := Apply(Net(), s1, Request(CommitReq(0, 2)));
  }

  lemma RequestTwoStore(st: Store)
    requires st == Loaded(Net(), Genesis()).store.(uncommitted := map[0 := 3])
    ensures SubmissionOf(st, CommitReq(0, 2)) == Some(Commit2())
    ensures var st' := AfterRequest(st, CommitReq(0, 2));
      st'.blocks == st.blocks && st'.mark == st.mark && st'.pendingCommit.Some?
  {
    hide Net, AfterRequest, SubmissionOf, Top, Head;
    var c := CommitReq(0, 2);
    var st1 := Noted(st, c);
    StrongTop();
    assert st1.uncommitted == map[0 := 3, 2 := 0];
    AlternateRounds(st1);
    RequestOutcome(st, c, st1);
  }

  lemma AlternateRounds(st: Store)
    requires st.commitMark == -2 && 0 in st.uncommitted && 2 in st.uncommitted
    ensures Ready(st, 2)
  {
    forall x | 0 <= x <= 2 && (x + 2) % 2 == 0 ensures x in st.uncommitted {
      assert x == 0 || x == 1 || x == 2;
    }
  }

  lemma NothingStrong()
    ensures forall h :: !MeetsAt(Net(), 3, Strong(0), h)
  {
    hide Net;
  }

  lemma StrongTop()
    ensures IsTop(Net(), 0, Strong(2), 7)
  {
    hide Net;
  }

  lemma NetCommits() returns (es: seq<Event>)
    ensures Keyed(Net()) && Runs(Net(), Init(Genesis()), es)
    ensures var s := After(Net(), Init(Genesis()), es);
      CommittedAlone(Net(), Genesis(), s, Commit2()) && s.store.blocks == Net() && s.store.pendingCommit.Some?
  {
    hide *;
    var u, m0, c1, c2 := Net(), Genesis(), CommitReq(3, 0), CommitReq(0, 2);
    NetLive();
    var s := Loaded(u, m0);
    var s1 := RequestZero(s);
    var s2 := RequestTwo(s, s1);
    es := LoadAll(u, m0);
    InvInit(u, m0);
    InvRun(u, m0, Init(m0), es);
    InvStep(u, m0, s, Request(c1));
    InvStep(u, m0, s1, Request(c2));
    var rest := CommitsAlone(u, m0, s2, Commit2());
    Untouched(u, m0, s2, After(u, s2, rest));
    RunCons(u, s1, Request(c2), rest);
    rest := [Request(c2)] + rest;
    RunCons(u, s, Request(c1), rest);
    rest := [Request(c1)] + rest;
    RunAppend(u, Init(m0), es, rest);
    es := es + rest;
  }

  lemma Untouched(u: Graph, m0: Marks, s: Sys, s': Sys)
    requires Submitted(u, m0, s, Commit2()) && s.store.pendingCommit.Some? && DagSame(s, s')
    ensures s'.store.blocks == u && s'.store.pendingCommit.Some?
  {}

  ghost predicate AllProposed(u: Graph, n: nat) {
    forall s :: s in u ==> Proposed(u, n, s)
  }

  lemma NetAllProposed()
    ensures AllProposed(Net(), 4)
  {
    hide Net, Proposed;
    forall s | s in Net() ensures Proposed(Net(), 4, s) {
      NetProposed(s);
    }
  }

  /** A run without any faulty member that loses a block. Member 3 entered round 1 on a quorum
      its own first block was not part of, so its second block skips the first; committing round
      2 moves the watermark over both and executes only the second. */
  lemma HonestBlockLost() returns (u: Graph, m0: Marks, es: seq<Event>, lost: Slot)
    ensures Keyed(u) && AllProposed(u, 4) && Runs(u, Init(m0), es)
    ensures var s := After(u, Init(m0), es);
      lost in s.pushed && lost !in s.log && !Committed(m0, lost) && Committed(Target(s), lost)
  {
    hide *;
    u, m0, lost := Net(), Genesis(), Slot(3, 0);
    NetAllProposed();
    es := NetCommits();
    Outcome(u, m0, After(u, Init(m0), es), Commit2());
    NetMarks();
    SlowBlock(CommitMarks(u, m0, Commit2()));
  }

  lemma SlowBlock(m: Marks)
    requires MarkOf(m, 3) == Cut(3)
    ensures Slot(3, 0) in Net() && !Committed(Genesis(), Slot(3, 0)) && Committed(m, Slot(3, 0))
  {}

  // ---- after the cleanup ----

  /** What the cleanup leaves: two blocks each of members 0 and 2, and nothing of member 3. */
  lemma LeftReply(g: Graph)
    requires forall s :: s in g <==> InNet(s) && s.height > Cut(s.author)
    requires forall s :: s in g ==> g[s] == Content(s)
    ensures LatestHeader(g, 3) == None
    ensures RefReply(g, 4, 3, 1) == Qualified(g, 1, 4) == [Head(0, 7), Head(2, 4)]
  {
    hide LatestHeader, Content, Qualified;
    LatestIs(g, 0, 7);
    LatestNone(g, 1);
    LatestIs(g, 2, 4);
    LatestNone(g, 3);
    Contents();
    QualifiedOfFour(g, 1);
    assert Share(g, 1, 0) + Share(g, 1, 1) + Share(g, 1, 2) + Share(g, 1, 3) == [Head(0, 7), Head(2, 4)];
  }

  lemma CleanLeaves(s: Sys, marks: Marks)
    requires s.cleanup.Some? && s.store.pendingCommit.Some? && !s.stuck && s.store.blocks == Net()
    requires s.store.mark + s.cleanup.value == marks && forall a :: 0 <= a < 4 ==> MarkOf(marks, a) == Cut(a)
    ensures Enabled(Net(), s, Clean)
    ensures var g := Apply(Net(), s, Clean).store.blocks;
      (forall t :: t in g <==> InNet(t) && t.height > Cut(t.author)) && forall t :: t in g ==> g[t] == Content(t)
  {
    hide Net, Content;
  }

  /** The failing family of `QuorumTestExact` is real: after the cleanup of that commit, member
      3's own line is empty and two of four members qualify, which is less than a quorum, yet
      the reply has two headers, and a reply of more than one is what opens the next round. */
  lemma EntryWithoutQuorum() returns (u: Graph, m0: Marks, es: seq<Event>)
    ensures Keyed(u) && AllProposed(u, 4) && Runs(u, Init(m0), es)
    ensures var g := After(u, Init(m0), es).store.blocks;
      && LatestHeader(g, 3) == None && |Qualified(g, 1, 4)| == 2 < HighThreshold(4)
      && |RefReply(g, 4, 3, 1)| > 1
  {
    hide *;
    u, m0 := Net(), Genesis();
    NetAllProposed();
    es := NetCommits();
    var s := After(u, Init(m0), es);
    Outcome(u, m0, s, Commit2());
    NetMarks();
    TargetIs(s);
    CleanLeaves(s, CommitMarks(u, m0, Commit2()));
    LeftReply(Apply(u, s, Clean).store.blocks);
    QualifiedOfFour(Apply(u, s, Clean).store.blocks, 1);
    RunNil(u, Apply(u, s, Clean));
    RunCons(u, s, Clean, []);
    RunAppend(u, Init(m0), es, [Clean] + []);
    es := es + ([Clean] + []);
  }

  lemma TargetIs(s: Sys)
    requires s.cleanup.Some?
    ensures Target(s) == s.store.mark + s.cleanup.value
  {}
}
