/** The dag as a plain map from slots to blocks cut at the watermarks, with the
    commit-readiness state. The sliding-window implementation in `Dag` refines it. */
module Store {
  import opened Types
  import opened Anchors

  datatype Store = Store(
    blocks: Graph,
    mark: Marks,
    uncommitted: map<int, NodeID>,
    commitMark: int,
    pendingCommit: Option<CommitReq>,
    pending: set<Slot>)

  /** `Parked` registers the pull; its answer comes with the push of that slot. */
  datatype PullReply = AlreadyCommitted | Found(block: Block) | Parked

  ghost function AfterPush(st: Store, b: Block): Store {
    if Committed(st.mark, b.header.slot) then st
    else st.(blocks := st.blocks[b.header.slot := b])
  }

  ghost function AnswerPull(st: Store, s: Slot): PullReply {
    if Committed(st.mark, s) then AlreadyCommitted
    else if s in st.blocks then Found(st.blocks[s])
    else Parked
  }

  ghost function AfterPull(st: Store, s: Slot): Store {
    if AnswerPull(st, s).Parked? then st.(pending := st.pending + {s}) else st
  }

  ghost function AfterClean(st: Store, wm: Marks): Store
    requires st.pendingCommit.Some?
  {
    var mark, round := st.mark + wm, st.pendingCommit.value.round;
    Store(Live(st.blocks, mark), mark,
          map r | r in st.uncommitted && r > round :: st.uncommitted[r],
          round, st.pendingCommit, {})
  }

  // ---- highest block of one author with a property ----

  /** `Strong(r)`: a block of round r at least two above its round's first block. */
  datatype Want = Latest | Strong(round: int)

  predicate Meets(w: Want, h: Header) {
    match w
    case Latest => true
    case Strong(r) => h.round == r && h.slot.height - h.firstRefH >= 2
  }

  predicate MeetsAt(g: Graph, a: NodeID, w: Want, h: int) {
    Slot(a, h) in g && Meets(w, g[Slot(a, h)].header)
  }

  ghost predicate IsTop(g: Graph, a: NodeID, w: Want, h: int) {
    MeetsAt(g, a, w, h) && forall k :: MeetsAt(g, a, w, k) ==> k <= h
  }

  lemma {:induction false} TopExists(g: Graph, a: NodeID, w: Want, h0: int) returns (h: int)
    requires MeetsAt(g, a, w, h0)
    ensures IsTop(g, a, w, h)
    decreases |g|
  {
    h := h0;
    if k :| MeetsAt(g, a, w, k) && h0 < k {
      var g' := g - {Slot(a, h0)};
      assert MeetsAt(g', a, w, k);
      h := TopExists(g', a, w, k);
      assert MeetsAt(g', a, w, h);
      forall j | MeetsAt(g, a, w, j) ensures j <= h {
        assert j != h0 ==> MeetsAt(g', a, w, j);
      }
    }
  }

  ghost function Top(g: Graph, a: NodeID, w: Want): (top: Option<int>)
    ensures top.Some? ==> IsTop(g, a, w, top.value)
    ensures top.None? ==> forall h :: !MeetsAt(g, a, w, h)
  {
    if h0 :| MeetsAt(g, a, w, h0) then
      assert exists h :: IsTop(g, a, w, h) by {
        var h := TopExists(g, a, w, h0);
      }
      var h :| IsTop(g, a, w, h);
      Some(h)
    else None
  }

  // ---- commit requests ----

  /** Every second round above `commitMark`, up to `r`, has a known leader. */
  ghost predicate Ready(st: Store, r: int) {
    forall x :: st.commitMark + 2 <= x <= r && (x - st.commitMark) % 2 == 0 ==> x in st.uncommitted
  }

  function Later(pc: Option<CommitReq>, req: CommitReq): CommitReq {
    if pc.None? || pc.value.round < req.round then req else pc.value
  }

  ghost function Noted(st: Store, req: CommitReq): Store {
    st.(uncommitted := st.uncommitted[req.round := req.leader],
        pendingCommit := Some(Later(st.pendingCommit, req)))
  }

  ghost function SubmissionOf(st: Store, req: CommitReq): Option<SubmitReq> {
    var st1 := Noted(st, req);
    var pc := st1.pendingCommit.value;
    var top := Top(st1.blocks, pc.leader, Strong(pc.round));
    if Ready(st1, pc.round) && top.Some?
    then Some(SubmitReq(Slot(pc.leader, top.value - 2), pc.round, st1.uncommitted))
    else None
  }

  ghost function AfterRequest(st: Store, req: CommitReq): Store {
    var st1 := Noted(st, req);
    if Ready(st1, st1.pendingCommit.value.round) && SubmissionOf(st, req).None?
    then st1.(pendingCommit := None)
    else st1
  }

  /** What a request leads to, in numbers. The commit considered is the pending one unless the
      request is for a higher round. It is submitted if and only if every second round above the
      committed one up to it has a known leader and its leader holds a block of its round two or
      more above the round's first; the slot submitted is two below the highest such block. */
  lemma SubmissionExact(st: Store, c: CommitReq)
    ensures var keep := st.pendingCommit.Some? && st.pendingCommit.value.round >= c.round;
      var round := if keep then st.pendingCommit.value.round else c.round;
      var leader := if keep then st.pendingCommit.value.leader else c.leader;
      var known := st.uncommitted[c.round := c.leader];
      var ready := forall x :: st.commitMark + 2 <= x <= round && (x - st.commitMark) % 2 == 0 ==> x in known;
      var sub, st' := SubmissionOf(st, c), AfterRequest(st, c);
      && (sub.Some? <==> ready && exists h :: StrongAt(st.blocks, leader, round, h))
      && (sub.Some? ==>
            && sub.value.round == round && sub.value.slot.author == leader && sub.value.uncommitted == known
            && StrongAt(st.blocks, leader, round, sub.value.slot.height + 2)
            && forall h :: StrongAt(st.blocks, leader, round, h) ==> h <= sub.value.slot.height + 2)
      && st' == st.(uncommitted := known,
                    pendingCommit := if ready && sub.None? then None else Some(CommitReq(leader, round)))
  {
    var st1 := Noted(st, c);
    var pc := st1.pendingCommit.value;
    RequestOutcome(st, c, st1);
    hide AfterRequest, SubmissionOf, Top;
    assert forall h :: StrongAt(st.blocks, pc.leader, pc.round, h) <==> MeetsAt(st1.blocks, pc.leader, Strong(pc.round), h);
  }

  /** Author `a` holds at height `h` a block of `round`, two or more above the round's first. */
  ghost predicate StrongAt(g: Graph, a: NodeID, round: int, h: int) {
    var s := Slot(a, h);
    s in g && g[s].header.round == round && g[s].header.slot.height >= g[s].header.firstRefH + 2
  }

  /** The three outcomes of a request once it is noted: delayed, submitted, given up. */
  lemma RequestOutcome(st: Store, req: CommitReq, st1: Store)
    requires st1 == Noted(st, req)
    ensures var pc := st1.pendingCommit.value;
      var top := Top(st1.blocks, pc.leader, Strong(pc.round));
      if !Ready(st1, pc.round) then
        AfterRequest(st, req) == st1 && SubmissionOf(st, req) == None
      else if top.Some? then
        AfterRequest(st, req) == st1
        && SubmissionOf(st, req) == Some(SubmitReq(Slot(pc.leader, top.value - 2), pc.round, st1.uncommitted))
      else
        AfterRequest(st, req) == st1.(pendingCommit := None) && SubmissionOf(st, req) == None
  {}
}
