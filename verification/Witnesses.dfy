/** Runs at which the code does not do what its comments promise. Each is a run of the pipeline
    from its initial state, so each starts from what the dag itself would submit. */
module Witnesses {
  import opened Types
  import opened CausalGraph
  import opened CommitOrder
  import opened Anchors
  import opened Batches
  import opened Replay
  import opened Store
  import opened Commitor
  import opened Pipeline
  import opened Progress

  // ---- committing one submission ----

  /** Everything was delivered and `r` is the only submission so far. */
  ghost predicate Submitted(u: Graph, m0: Marks, s: Sys, r: SubmitReq) {
    && s.pushed == u.Keys && s.store.blocks == u && s.store.mark == m0
    && s.queue == [r] && s.phase.Idle? && s.cleanup.None? && s.finished == []
    && Complete(u, m0, r.slot) && r.slot in Live(u, m0)
  }

  /** `r` is committed and its cleanup is on its way. */
  ghost predicate CommittedAlone(u: Graph, m0: Marks, s: Sys, r: SubmitReq)
    requires Keyed(u)
  {
    && s.finished == [r] && s.queue == [] && s.phase.Idle? && !s.stuck && s.pushed == u.Keys
    && s.log == CommitLog(u, m0, r)
    && s.cleanup.Some? && s.store.mark + s.cleanup.value == CommitMarks(u, m0, r)
  }

  lemma CommitsAlone(u: Graph, m0: Marks, s: Sys, r: SubmitReq) returns (es: seq<Event>)
    requires Keyed(u) && Inv(u, m0, s) && Submitted(u, m0, s, r)
    ensures Runs(u, s, es) && CommittedAlone(u, m0, After(u, s, es), r) && DagSame(s, After(u, s, es))
  {
    hide Runs, After, Keyed, CommitLog, CommitMarks, Complete, Pulled;
    assert Arrived(u, s, r.slot) by {
      assert Pulled(u, m0, r.slot).Keys <= u.Keys by { PulledInside(u, m0, r.slot); }
    }
    es := CommitCompletes(u, m0, s);
    var s' := After(u, s, es);
    assert s'.finished == [r];
    ReplaySnoc(u, m0, [], r);
    assert [] + [r] == [r];
    MarksRise(u, m0, r);
    PulledFromRoot(u, m0, r.slot);
    assert Committed(Target(s'), r.slot);
  }

  lemma PulledInside(u: Graph, m: Marks, t: Slot)
    ensures Pulled(u, m, t).Keys <= u.Keys
  {}

  /** The dag's state after a request for round 0 led by `a`. */
  ghost function Asked(u: Graph, m0: Marks, a: NodeID): Store {
    Loaded(u, m0).store.(uncommitted := map[0 := a], pendingCommit := Some(CommitReq(a, 0)))
  }

  /** With all of `u` delivered, round 0 is requested and committed. */
  lemma CommitRoundZero(u: Graph, m0: Marks, a: NodeID, h: int, r: SubmitReq) returns (es: seq<Event>)
    requires Keyed(u) && (forall t :: t in u ==> !Committed(m0, t)) && IsTop(u, a, Strong(0), h)
    requires r == SubmitReq(Slot(a, h - 2), 0, map[0 := a]) && r.slot in u && Complete(u, m0, r.slot)
    ensures Runs(u, Init(m0), es)
    ensures CommittedAlone(u, m0, After(u, Init(m0), es), r) && After(u, Init(m0), es).store == Asked(u, m0, a)
  {
    var c := CommitReq(a, 0);
    var s := RequestRoundZero(u, m0, a, h, r);
    hide Runs, After, Complete, CommittedAlone, Apply, Enabled;
    es := LoadAll(u, m0);
    InvInit(u, m0);
    InvRun(u, m0, Init(m0), es);
    InvStep(u, m0, Loaded(u, m0), Request(c));
    var rest := CommitsAlone(u, m0, s, r);
    RunCons(u, Loaded(u, m0), Request(c), rest);
    RunAppend(u, Init(m0), es, [Request(c)] + rest);
    es := es + ([Request(c)] + rest);
  }

  lemma RequestRoundZero(u: Graph, m0: Marks, a: NodeID, h: int, r: SubmitReq) returns (s: Sys)
    requires Keyed(u) && (forall t :: t in u ==> !Committed(m0, t)) && IsTop(u, a, Strong(0), h)
    requires r == SubmitReq(Slot(a, h - 2), 0, map[0 := a]) && r.slot in u && Complete(u, m0, r.slot)
    ensures Enabled(u, Loaded(u, m0), Request(CommitReq(a, 0)))
    ensures s == Apply(u, Loaded(u, m0), Request(CommitReq(a, 0))) && Submitted(u, m0, s, r) && s.store == Asked(u, m0, a)
  {
    var st, c := Loaded(u, m0).store, CommitReq(a, 0);
    assert Ready(Noted(st, c), 0);
    assert SubmissionOf(st, c) == Some(r);
    s := Apply(u, Loaded(u, m0), Request(c));
  }

  // ---- an equivocating leader loses its own submitted block ----

  ghost function RaisedNet(): Graph {
    map[Slot(0, 1) := Block(Header(Slot(0, 1), 0, 0), [Header(Slot(0, 2), 0, 0)]),
        Slot(0, 2) := Block(Header(Slot(0, 2), 0, 0), []),
        Slot(0, 3) := Block(Header(Slot(0, 3), 0, 0), [])]
  }

  /** The failing family of `PartitionExact` is real: a leader whose lower block references its
      higher one raises the anchor past the slot the dag submits. That block was delivered, is
      never executed, and lies below the new watermark. */
  lemma RaisedAnchorLosesBlock() returns (u: Graph, m0: Marks, es: seq<Event>)
    ensures Keyed(u) && Runs(u, Init(m0), es)
    ensures var s := After(u, Init(m0), es);
      && s.finished == [SubmitReq(Slot(0, 1), 0, map[0 := 0])] && Slot(0, 1) in s.pushed
      && Slot(0, 1) !in s.log && Committed(Target(s), Slot(0, 1))
  {
    hide *;
    u, m0 := RaisedNet(), map[0 := -1];
    var r := SubmitReq(Slot(0, 1), 0, map[0 := 0]);
    RaisedLoss(u, m0, r);
    es := CommitRoundZero(u, m0, 0, 3, r);
    Outcome(u, m0, After(u, Init(m0), es), r);
  }

  /** What a state after one commit says about a slot. */
  lemma Outcome(u: Graph, m0: Marks, s: Sys, r: SubmitReq)
    requires Keyed(u) && CommittedAlone(u, m0, s, r)
    ensures s.finished == [r] && s.pushed == u.Keys && s.cleanup.Some? && !s.stuck
    ensures s.log == CommitLog(u, m0, r) && Target(s) == CommitMarks(u, m0, r)
  {}

  lemma RaisedLoss(u: Graph, m0: Marks, r: SubmitReq)
    requires u == RaisedNet() && m0 == map[0 := -1] && r == SubmitReq(Slot(0, 1), 0, map[0 := 0])
    ensures Keyed(u) && (forall t :: t in u ==> !Committed(m0, t)) && IsTop(u, 0, Strong(0), 3)
    ensures r.slot in u && Complete(u, m0, r.slot)
    ensures r.slot !in CommitLog(u, m0, r) && Committed(CommitMarks(u, m0, r), r.slot)
  {
    hide Complete, CommitLog, CommitMarks, Acyclic;
    RaisedPulled(u, m0);
    assert Pulled(u, m0, r.slot)[Slot(0, 2)] == u[Slot(0, 2)];
    LosesWhenRaised(u, m0, r, Slot(0, 2));
  }

  lemma RaisedPulled(u: Graph, m0: Marks)
    requires u == RaisedNet() && m0 == map[0 := -1]
    ensures Complete(u, m0, Slot(0, 1)) && Pulled(u, m0, Slot(0, 1)).Keys == {Slot(0, 1), Slot(0, 2)}
    ensures Acyclic(Pulled(u, m0, Slot(0, 1)))
  {
    var low, high := Slot(0, 1), Slot(0, 2);
    assert u[low].refs[0].slot == high;
    assert Live(u, m0) == u;
    TwoBlockCone(u, low, high);
    var p := Pulled(u, m0, low);
    TwoBlockCone(p, low, high);
    forall s, t | Reaches(p, s, t) && Reaches(p, t, s) ensures s == t {
      assert s in p && t in p by {
        var path :| IsPath(p, path) && path[0] == s && path[|path| - 1] == t;
      }
      assert t in Cone(p, s) && s in Cone(p, t);
    }
  }

  lemma TwoBlockCone(g: Graph, low: Slot, high: Slot)
    requires low in g && high in g && low != high && RefsOnly(g, low, high) && g[high].refs == []
    ensures Cone(g, high) == {high} && Cone(g, low) == {low, high}
  {
    ConeSelf(g, high);
    ConeLeast(g, high, {high});
    PlainBlockCone(g, low, high);
  }

  // ---- a request that arrives before the cleanup crashes the dag ----

  ghost function TwoBlocks(): Graph {
    map[Slot(0, 0) := Block(Header(Slot(0, 0), 0, 0), []), Slot(0, 2) := Block(Header(Slot(0, 2), 0, 0), [])]
  }

  /** Without the discipline the dag can crash: while the cleanup of round 0 is on its way, a
      request for round 2 whose leader has no block to commit resets the pending commit. */
  lemma CleanupCanCrash() returns (u: Graph, m0: Marks, es: seq<Event>)
    ensures Keyed(u) && Runs(u, Init(m0), es)
    ensures After(u, Init(m0), es).cleanup.Some? && After(u, Init(m0), es).store.pendingCommit.None?
  {
    hide *;
    u, m0 := TwoBlocks(), map[0 := -1];
    var r, c := SubmitReq(Slot(0, 0), 0, map[0 := 0]), CommitReq(0, 2);
    TwoBlocksFacts(u, m0);
    es := CommitRoundZero(u, m0, 0, 2, r);
    var s := After(u, Init(m0), es);
    Outcome(u, m0, s, r);
    SecondRequestResets(u, m0, s, c);
    RunNil(u, Apply(u, s, Request(c)));
    RunCons(u, s, Request(c), []);
    RunAppend(u, Init(m0), es, [Request(c)] + []);
    es := es + ([Request(c)] + []);
  }

  lemma TwoBlocksFacts(u: Graph, m0: Marks)
    requires u == TwoBlocks() && m0 == map[0 := -1]
    ensures Keyed(u) && (forall t :: t in u ==> !Committed(m0, t)) && IsTop(u, 0, Strong(0), 2)
    ensures Slot(0, 0) in u && Complete(u, m0, Slot(0, 0))
  {}

  lemma SecondRequestResets(u: Graph, m0: Marks, s: Sys, c: CommitReq)
    requires u == TwoBlocks() && c == CommitReq(0, 2) && s.store == Asked(u, m0, 0) && s.cleanup.Some? && !s.stuck
    ensures Enabled(u, s, Request(c))
    ensures Apply(u, s, Request(c)).cleanup.Some? && Apply(u, s, Request(c)).store.pendingCommit.None?
  {
    assert forall h :: !MeetsAt(u, 0, Strong(2), h);
    assert Ready(Noted(Asked(u, m0, 0), c), 2);
  }

  // ---- a repeated delivery blocks the dag ----

  /** The failing family of `RepeatedPushBlocks` is real: a slot that was parked and then
      delivered stays registered until the next cleanup, and a second delivery blocks. */
  lemma RepeatedDeliveryBlocks() returns (u: Graph, m0: Marks, es: seq<Event>, t: Slot)
    ensures Keyed(u) && t in u && Runs(u, Init(m0), es)
    ensures var s := After(u, Init(m0), es);
      t in s.pushed && Replies(s, t) && !s.stuck && Deliver(u, s, t).stuck
  {
    u, m0, t := TwoBlocks(), map[0 := -1], Slot(0, 0);
    var c := CommitReq(0, 0);
    var s0 := Init(m0);
    var s1 := Apply(u, s0, Push(Slot(0, 2)));
    var s2 := ParkRequested(u, s1);
    var s3, s4 := ParkWaits(u, s2);
    var s5 := ParkedDelivery(u, s4, t);
    hide *;
    RunNil(u, s5);
    es := [];
    RunCons(u, s4, Push(t), es); es := [Push(t)] + es;
    RunCons(u, s3, Park, es); es := [Park] + es;
    RunCons(u, s2, Start, es); es := [Start] + es;
    RunCons(u, s1, Request(c), es); es := [Request(c)] + es;
    RunCons(u, s0, Push(Slot(0, 2)), es); es := [Push(Slot(0, 2))] + es;
  }

  lemma ParkedDelivery(u: Graph, s4: Sys, t: Slot) returns (s5: Sys)
    requires Keyed(u) && t in u && t !in s4.pushed && !s4.stuck && !Committed(s4.store.mark, t) && t in s4.store.pending
    requires s4.phase.Pulling? && s4.phase.q == [t] && s4.phase.parked && u[t].refs == []
    ensures Enabled(u, s4, Push(t)) && s5 == Apply(u, s4, Push(t))
    ensures t in s5.pushed && Replies(s5, t) && !s5.stuck && Deliver(u, s5, t).stuck
  {
    s5 := Apply(u, s4, Push(t));
    assert s5.phase.q == [];
  }

  lemma ParkRequested(u: Graph, s1: Sys) returns (s2: Sys)
    requires u == TwoBlocks() && s1 == Init(map[0 := -1]).(pushed := {Slot(0, 2)},
               store := Init(map[0 := -1]).store.(blocks := map[Slot(0, 2) := u[Slot(0, 2)]]))
    ensures s2 == Apply(u, s1, Request(CommitReq(0, 0)))
    ensures s2.queue == [SubmitReq(Slot(0, 0), 0, map[0 := 0])]
    ensures s2.(store := s1.store, queue := []) == s1
    ensures s2.store.blocks == s1.store.blocks && s2.store.mark == s1.store.mark && s2.store.pending == {}
  {
    var c := CommitReq(0, 0);
    assert IsTop(s1.store.blocks, 0, Strong(0), 2);
    assert Ready(Noted(s1.store, c), 0);
    s2 := Apply(u, s1, Request(c));
  }

  lemma ParkWaits(u: Graph, s2: Sys) returns (s3: Sys, s4: Sys)
    requires s2.phase.Idle? && s2.cleanup.None? && !s2.stuck && Slot(0, 0) !in s2.store.blocks
    requires s2.queue != [] && s2.queue[0].slot == Slot(0, 0) && !Committed(s2.store.mark, Slot(0, 0))
    ensures Enabled(u, s2, Start) && s3 == Apply(u, s2, Start)
    ensures Enabled(u, s3, Park) && s4 == Apply(u, s3, Park)
    ensures s4.phase.Pulling? && s4.phase.q == [Slot(0, 0)] && s4.phase.parked
    ensures s4.store == s2.store.(pending := s2.store.pending + {Slot(0, 0)})
    ensures s4.pushed == s2.pushed && !s4.stuck
  {
    s3 := Apply(u, s2, Start);
    s4 := Apply(u, s3, Park);
  }
}
