/** Whole-run properties of the pipeline that depend on who leads and how blocks are built. */
module Leaders {
  import opened Types
  import opened Anchors
  import opened Batches
  import opened Replay
  import opened Store
  import opened Commitor
  import opened Pipeline
  import P = Proposer

  // ---- one leader per round ----

  /** Elections are deterministic: every request for round r names `leader(r)`. */
  ghost predicate Agreed(leader: int -> NodeID, es: seq<Event>) {
    forall i :: 0 <= i < |es| && es[i].Request? ==> es[i].commit.leader == leader(es[i].commit.round)
  }

  ghost predicate LedBy(leader: int -> NodeID, r: SubmitReq) {
    r.slot.author == leader(r.round) && forall x :: x in r.uncommitted ==> r.uncommitted[x] == leader(x)
  }

  ghost predicate Led(leader: int -> NodeID, s: Sys) {
    && (forall x :: x in s.store.uncommitted ==> s.store.uncommitted[x] == leader(x))
    && (s.store.pendingCommit.Some? ==> s.store.pendingCommit.value.leader == leader(s.store.pendingCommit.value.round))
    && (forall r :: r in s.queue ==> LedBy(leader, r))
    && (s.phase.Pulling? ==> LedBy(leader, s.phase.req))
    && (forall r :: r in s.finished ==> LedBy(leader, r))
  }

  lemma LedStep(leader: int -> NodeID, u: Graph, s: Sys, e: Event)
    requires Enabled(u, s, e) && Led(leader, s)
    requires e.Request? ==> e.commit.leader == leader(e.commit.round)
    ensures Led(leader, Apply(u, s, e))
  {}

  lemma {:induction false} LedRun(leader: int -> NodeID, u: Graph, s: Sys, es: seq<Event>)
    requires Runs(u, s, es) && Agreed(leader, es) && Led(leader, s)
    ensures Led(leader, After(u, s, es))
    decreases |es|
  {
    if es == [] {
    } else {
      LedStep(leader, u, s, es[0]);
      LedRun(leader, u, Apply(u, s, es[0]), es[1..]);
    }
  }

  /** Over a history in which every block references its author's previous block and none
      reaches a higher block of its own author, every reachable log lists each author's blocks
      as 0, 1, 2, ... up to the watermark: no gap, no repetition, no reordering. */
  lemma ParentClosedRun(leader: int -> NodeID, u: Graph, m0: Marks, es: seq<Event>, a: NodeID)
    requires Keyed(u) && ParentClosed(u) && Descends(u)
    requires a in m0 && forall x :: x in m0 ==> m0[x] == -1
    requires Runs(u, Init(m0), es) && Agreed(leader, es)
    ensures var s := After(u, Init(m0), es);
      && MarkOf(Target(s), a) >= -1
      && Heights(s.log, a) == UpTo(MarkOf(Target(s), a) + 1)
  {
    hide Runs, After, Heights, UpTo, ParentClosed, Descends, Sound, ReplayLog, ReplayMarks, Agreed, Init, Keyed;
    SoundRun(leader, u, m0, es);
    ReplayedRun(u, m0, es);
    ReplayProjection(u, m0, After(u, Init(m0), es).finished, a);
  }

  lemma SoundRun(leader: int -> NodeID, u: Graph, m0: Marks, es: seq<Event>)
    requires Keyed(u) && Descends(u) && Runs(u, Init(m0), es) && Agreed(leader, es)
    ensures Sound(u, m0, After(u, Init(m0), es).finished)
  {
    InvInit(u, m0);
    InvRun(u, m0, Init(m0), es);
    LedRun(leader, u, Init(m0), es);
    hide Runs, After, AllComplete, PhaseOk, PendingOk, CleanupOk, HoldsPushed, Replays;
    SoundFinished(leader, u, m0, After(u, Init(m0), es).finished);
  }

  lemma SoundFinished(leader: int -> NodeID, u: Graph, m0: Marks, reqs: seq<SubmitReq>)
    requires Keyed(u) && Descends(u) && AllComplete(u, m0, reqs)
    requires forall r :: r in reqs ==> LedBy(leader, r)
    ensures Sound(u, m0, reqs)
  {
    forall i | 0 <= i < |reqs| ensures SoundAt(u, ReplayMarks(u, m0, reqs[..i]), reqs[i]) {
      assert reqs[i] in reqs;
      DescendsNotRaised(u, ReplayMarks(u, m0, reqs[..i]), reqs[i]);
    }
  }

  // ---- the submitted slot belongs to the submitted round ----

  /** The blocks of `a` in `u` carry the headers one chain of proposals gives them. */
  ghost predicate Honest(u: Graph, a: NodeID) {
    exists hs :: P.Chain(a, hs) && FromChain(u, a, hs)
  }

  ghost predicate FromChain(u: Graph, a: NodeID, hs: seq<Header>) {
    forall s :: s in u && s.author == a ==> 0 <= s.height < |hs| && u[s].header == hs[s.height]
  }

  ghost predicate OfRound(u: Graph, r: SubmitReq) {
    Honest(u, r.slot.author) ==>
      r.slot.height >= 0 && (r.slot in u ==> u[r.slot].header.round == r.round)
  }

  lemma SubmissionOfRound(u: Graph, st: Store, c: CommitReq)
    requires forall s :: s in st.blocks ==> s in u && st.blocks[s] == u[s]
    requires SubmissionOf(st, c).Some?
    ensures OfRound(u, SubmissionOf(st, c).value)
  {
    var r := SubmissionOf(st, c).value;
    var a, h := r.slot.author, r.slot.height + 2;
    assert MeetsAt(st.blocks, a, Strong(r.round), h);
    if Honest(u, a) {
      var hs :| P.Chain(a, hs) && FromChain(u, a, hs);
      assert u[Slot(a, h)].header == hs[h];
      P.ChainAt(a, hs, h);
      P.ChainRounds(a, hs, h - 2, h);
    }
  }

  ghost predicate RoundsOk(u: Graph, s: Sys) {
    && (forall r :: r in s.queue ==> OfRound(u, r))
    && (s.phase.Pulling? ==> OfRound(u, s.phase.req))
    && (forall r :: r in s.finished ==> OfRound(u, r))
  }

  lemma RoundsStep(u: Graph, s: Sys, e: Event)
    requires HoldsPushed(u, s) && Enabled(u, s, e) && RoundsOk(u, s)
    ensures RoundsOk(u, Apply(u, s, e))
  {
    if e.Request? && SubmissionOf(s.store, e.commit).Some? {
      SubmissionOfRound(u, s.store, e.commit);
    }
  }

  lemma {:induction false} RoundsRun(u: Graph, m0: Marks, s: Sys, es: seq<Event>)
    requires Keyed(u) && Inv(u, m0, s) && Runs(u, s, es) && RoundsOk(u, s)
    ensures RoundsOk(u, After(u, s, es))
    decreases |es|
  {
    if es == [] {
    } else {
      InvStep(u, m0, s, es[0]);
      RoundsStep(u, s, es[0]);
      RoundsRun(u, m0, Apply(u, s, es[0]), es[1..]);
    }
  }

  /** Anchor round: in every run, the slot submitted two below an honest leader's highest
      strong block is itself a block of the submitted round. */
  lemma AnchorRound(u: Graph, m0: Marks, es: seq<Event>, r: SubmitReq)
    requires Keyed(u) && Runs(u, Init(m0), es) && r in After(u, Init(m0), es).finished
    ensures Honest(u, r.slot.author) ==>
      r.slot.height >= 0 && (r.slot in u ==> u[r.slot].header.round == r.round)
  {
    InvInit(u, m0);
    RoundsRun(u, m0, Init(m0), es);
  }

  /** What is executed in a run, exactly: over a history in which no block reaches a higher block
      of its own author, the log is all the watermarks moved over if and only if no finished
      commit pulled a history that skips a height. */
  lemma CoveredRun(leader: int -> NodeID, u: Graph, m0: Marks, es: seq<Event>)
    requires Keyed(u) && Descends(u) && Runs(u, Init(m0), es) && Agreed(leader, es)
    ensures var s := After(u, Init(m0), es);
      Covers(m0, Target(s), s.log) <==> NoGaps(u, m0, s.finished)
  {
    hide Runs, After, Descends, Sound, ReplayLog, ReplayMarks, Agreed, Init, Keyed, Covers, NoGaps;
    SoundRun(leader, u, m0, es);
    ReplayedRun(u, m0, es);
    ReplayCoversExact(u, m0, After(u, Init(m0), es).finished);
  }
}
