/** The node's commit pipeline as a state machine: the dag actor, the single commitor actor
    and the environment that pushes blocks and requests commits, in any interleaving.

    A pull of an absent block is parked in the dag and answered by the push of that block.
    The commitor sends its cleanup and its next pulls over one channel, so the dag handles a
    cleanup before any pull that follows it; pushes and commit requests may come in between.
    `u` is what the network delivers: at most one block per slot. */
module Pipeline {
  import opened Types
  import opened CausalGraph
  import opened Anchors
  import opened Pull
  import opened Batches
  import opened Replay
  import opened Store

  /** `parked`: the pull of the queue head waits in the dag for a push. */
  datatype Phase =
    | Idle
    | Pulling(req: SubmitReq, q: seq<Slot>, pulled: Graph, anchors: map<int, Slot>, parked: bool)

  datatype Sys = Sys(
    store: Store,
    pushed: set<Slot>,           // slots delivered so far
    queue: seq<SubmitReq>,       // submitted, not yet taken by the commitor
    phase: Phase,
    cleanup: Option<Marks>,      // sent by the commitor, not yet handled by the dag
    finished: seq<SubmitReq>,    // submissions whose commit procedure has returned
    log: seq<Slot>,              // executed slots
    stuck: bool)                 // the dag blocked for ever on a reply nobody reads

  datatype Event =
    | Push(slot: Slot)
    | Request(commit: CommitReq)
    | Start
    | Skip
    | Take
    | Park
    | Finish
    | Clean

  ghost function Init(m0: Marks): Sys {
    Sys(Store(map[], m0, map[], -2, None, {}), {}, [], Idle, None, [], [], false)
  }

  /** The commitor talks to the dag only when no cleanup of its own is still ahead of it. */
  ghost predicate PullTurn(s: Sys) {
    s.phase.Pulling? && s.phase.q != [] && !s.phase.parked && s.cleanup.None?
  }

  ghost predicate Enabled(u: Graph, s: Sys, e: Event) {
    !s.stuck &&
    match e
    case Push(t) => t in u && t !in s.pushed
    case Request(_) => true
    case Start => s.phase.Idle? && s.queue != []
    case Skip => PullTurn(s) && (s.phase.q[0] in s.phase.pulled || AnswerPull(s.store, s.phase.q[0]).AlreadyCommitted?)
    case Take => PullTurn(s) && s.phase.q[0] !in s.phase.pulled && AnswerPull(s.store, s.phase.q[0]).Found?
    case Park => PullTurn(s) && s.phase.q[0] !in s.phase.pulled && AnswerPull(s.store, s.phase.q[0]).Parked?
    case Finish => s.phase.Pulling? && s.phase.q == []
    case Clean => s.cleanup.Some? && s.store.pendingCommit.Some?   // otherwise the dag crashes
  }

  ghost function Receive(p: Phase, b: Block): Phase
    requires p.Pulling? && p.q != []
  {
    Pulling(p.req, p.q[1..] + RefSlots(b), p.pulled[p.q[0] := b], RaiseAnchor(p.req, p.anchors, b.header), false)
  }

  ghost predicate AwaitedBy(p: Phase, t: Slot) {
    p.Pulling? && p.parked && p.q != [] && p.q[0] == t
  }

  /** Pushing `t` makes the dag send it to whoever registered a pull of `t`. */
  ghost predicate Replies(s: Sys, t: Slot) {
    !Committed(s.store.mark, t) && t in s.store.pending
  }

  /** A delivery of the block at `t`, first or repeated. */
  ghost function Deliver(u: Graph, s: Sys, t: Slot): Sys
    requires t in u
  {
    var s1 := s.(store := AfterPush(s.store, u[t]), pushed := s.pushed + {t});
    if !Replies(s, t) then s1
    else if AwaitedBy(s.phase, t) then s1.(phase := Receive(s.phase, u[t]))
    else s1.(stuck := true)
  }

  ghost function Apply(u: Graph, s: Sys, e: Event): Sys
    requires Enabled(u, s, e)
  {
    match e
    case Push(t) => Deliver(u, s, t)
    case Request(c) =>
      var sub := SubmissionOf(s.store, c);
      s.(store := AfterRequest(s.store, c),
         queue := if sub.Some? then s.queue + [sub.value] else s.queue)
    case Start =>
      var r := s.queue[0];
      s.(queue := s.queue[1..], phase := Pulling(r, [r.slot], map[], map[r.round := r.slot], false))
    case Skip =>
      var st := if s.phase.q[0] in s.phase.pulled then s.store else AfterPull(s.store, s.phase.q[0]);
      s.(store := st, phase := s.phase.(q := s.phase.q[1..]))
    case Take =>
      var t := s.phase.q[0];
      s.(store := AfterPull(s.store, t), phase := Receive(s.phase, AnswerPull(s.store, t).block))
    case Park => s.(store := AfterPull(s.store, s.phase.q[0]), phase := s.phase.(parked := true))
    case Finish =>
      var s1 := s.(phase := Idle, finished := s.finished + [s.phase.req]);
      if s.phase.pulled == map[] then s1
      else s1.(log := s.log + Log(s.phase.pulled, Roots(s.phase.anchors)), cleanup := Some(Tops(s.phase.pulled)))
    case Clean => s.(store := AfterClean(s.store, s.cleanup.value), cleanup := None)
  }

  ghost predicate Runs(u: Graph, s: Sys, es: seq<Event>)
    decreases |es|
  {
    es == [] || (Enabled(u, s, es[0]) && Runs(u, Apply(u, s, es[0]), es[1..]))
  }

  ghost function After(u: Graph, s: Sys, es: seq<Event>): Sys
    requires Runs(u, s, es)
    decreases |es|
  {
    if es == [] then s else After(u, Apply(u, s, es[0]), es[1..])
  }

  lemma RunCons(u: Graph, s: Sys, e: Event, es: seq<Event>)
    requires Enabled(u, s, e) && Runs(u, Apply(u, s, e), es)
    ensures Runs(u, s, [e] + es) && After(u, s, [e] + es) == After(u, Apply(u, s, e), es)
  {
    assert ([e] + es)[1..] == es;
  }

  lemma {:induction false} RunAppend(u: Graph, s: Sys, es: seq<Event>, fs: seq<Event>)
    requires Runs(u, s, es) && Runs(u, After(u, s, es), fs)
    ensures Runs(u, s, es + fs) && After(u, s, es + fs) == After(u, After(u, s, es), fs)
    decreases |es|
  {
    if es == [] {
      assert es + fs == fs;
    } else {
      RunAppend(u, Apply(u, s, es[0]), es[1..], fs);
      assert (es + fs)[1..] == es[1..] + fs;
    }
  }

  // ---- the invariant ----

  /** The watermarks once the cleanup under way is handled. */
  ghost function Target(s: Sys): Marks {
    if s.cleanup.Some? then s.store.mark + s.cleanup.value else s.store.mark
  }

  ghost predicate HoldsPushed(u: Graph, s: Sys) {
    && s.pushed <= u.Keys
    && (forall t :: t in s.store.blocks <==> t in s.pushed && !Committed(s.store.mark, t))
    && (forall t :: t in s.store.blocks ==> s.store.blocks[t] == u[t])
  }

  /** The log and watermarks are those of replaying the finished submissions over `u`. */
  ghost predicate Replays(u: Graph, m0: Marks, s: Sys)
    requires Keyed(u)
  {
    && s.log == ReplayLog(u, m0, s.finished)
    && Target(s) == ReplayMarks(u, m0, s.finished)
  }

  ghost predicate AllComplete(u: Graph, m0: Marks, reqs: seq<SubmitReq>) {
    forall i :: 0 <= i < |reqs| ==> Complete(u, ReplayMarks(u, m0, reqs[..i]), reqs[i].slot)
  }

  ghost predicate PhaseOk(u: Graph, s: Sys) {
    s.phase.Pulling? ==>
      && PullInv(u, Target(s), s.phase.req, s.phase.q, s.phase.pulled, s.phase.anchors)
      && (forall t :: t in s.phase.pulled ==> t in s.pushed)
      && (s.phase.parked ==> s.phase.q != [] && s.cleanup.None? && s.phase.q[0] !in s.phase.pulled
                             && s.phase.q[0] !in s.pushed && s.phase.q[0] in s.store.pending
                             && !Committed(s.store.mark, s.phase.q[0]))
      && (s.cleanup.Some? ==> s.phase.q != [])
  }

  /** A registered pull is either the one being waited for or was answered long ago. */
  ghost predicate PendingOk(s: Sys) {
    forall t :: t in s.store.pending ==> t in s.pushed || AwaitedBy(s.phase, t)
  }

  /** A cleanup under way names slots the dag still holds. */
  ghost predicate CleanupOk(s: Sys) {
    s.cleanup.Some? ==> forall a :: a in s.cleanup.value ==> Slot(a, s.cleanup.value[a]) in s.store.blocks
  }

  ghost predicate Inv(u: Graph, m0: Marks, s: Sys)
    requires Keyed(u)
  {
    && !s.stuck
    && HoldsPushed(u, s)
    && Replays(u, m0, s)
    && AllComplete(u, m0, s.finished)
    && PhaseOk(u, s)
    && PendingOk(s)
    && CleanupOk(s)
  }

  lemma InvInit(u: Graph, m0: Marks)
    requires Keyed(u)
    ensures Inv(u, m0, Init(m0))
  {}

  lemma InvPush(u: Graph, m0: Marks, s: Sys, t: Slot)
    requires Keyed(u) && Inv(u, m0, s) && Enabled(u, s, Push(t))
    ensures Inv(u, m0, Apply(u, s, Push(t)))
  {
    if !Committed(s.store.mark, t) && t in s.store.pending {
      assert AwaitedBy(s.phase, t);
      PullTake(u, Target(s), s.phase.req, s.phase.q, s.phase.pulled, s.phase.anchors);
    }
  }

  lemma InvTake(u: Graph, m0: Marks, s: Sys)
    requires Keyed(u) && Inv(u, m0, s) && Enabled(u, s, Take)
    ensures Inv(u, m0, Apply(u, s, Take))
  {
    PullTake(u, Target(s), s.phase.req, s.phase.q, s.phase.pulled, s.phase.anchors);
  }

  lemma InvSkip(u: Graph, m0: Marks, s: Sys)
    requires Keyed(u) && Inv(u, m0, s) && Enabled(u, s, Skip)
    ensures Inv(u, m0, Apply(u, s, Skip))
  {
    PullSkip(u, Target(s), s.phase.req, s.phase.q, s.phase.pulled, s.phase.anchors);
  }

  lemma InvStart(u: Graph, m0: Marks, s: Sys)
    requires Keyed(u) && Inv(u, m0, s) && Enabled(u, s, Start)
    ensures Inv(u, m0, Apply(u, s, Start))
  {
    PullStart(u, Target(s), s.queue[0]);
  }

  lemma InvFinish(u: Graph, m0: Marks, s: Sys)
    requires Keyed(u) && Inv(u, m0, s) && Enabled(u, s, Finish)
    ensures Inv(u, m0, Apply(u, s, Finish))
  {
    var m, r, p := s.store.mark, s.phase.req, s.phase.pulled;
    PullDone(u, m, r, p, s.phase.anchors);
    ReplaySnoc(u, m0, s.finished, r);
    CompleteSnoc(u, m0, s.finished, r);
    if p == map[] {
      EmptyCommit(u, m, r);
      EmptyTops(u, m, r);
    } else {
      assert forall a :: a in Tops(p) ==> Slot(a, Tops(p)[a]) in p;
    }
  }

  lemma CompleteSnoc(u: Graph, m0: Marks, reqs: seq<SubmitReq>, r: SubmitReq)
    requires AllComplete(u, m0, reqs) && Complete(u, ReplayMarks(u, m0, reqs), r.slot)
    ensures AllComplete(u, m0, reqs + [r])
  {
    forall i | 0 <= i < |reqs + [r]|
      ensures Complete(u, ReplayMarks(u, m0, (reqs + [r])[..i]), (reqs + [r])[i].slot)
    {
      assert (reqs + [r])[..i] == reqs[..i];
      assert reqs[..|reqs|] == reqs;
    }
  }

  lemma InvRequest(u: Graph, m0: Marks, s: Sys, c: CommitReq)
    requires Keyed(u) && Inv(u, m0, s) && Enabled(u, s, Request(c))
    ensures Inv(u, m0, Apply(u, s, Request(c)))
  {}

  lemma InvPark(u: Graph, m0: Marks, s: Sys)
    requires Keyed(u) && Inv(u, m0, s) && Enabled(u, s, Park)
    ensures Inv(u, m0, Apply(u, s, Park))
  {}

  lemma InvClean(u: Graph, m0: Marks, s: Sys)
    requires Keyed(u) && Inv(u, m0, s) && Enabled(u, s, Clean)
    ensures Inv(u, m0, Apply(u, s, Clean))
  {
    CleanHolds(u, s);
  }

  lemma CleanHolds(u: Graph, s: Sys)
    requires HoldsPushed(u, s) && CleanupOk(s) && s.cleanup.Some? && s.store.pendingCommit.Some?
    ensures HoldsPushed(u, s.(store := AfterClean(s.store, s.cleanup.value), cleanup := None))
  {
    var wm := s.cleanup.value;
    assert forall a :: a in wm ==> Slot(a, wm[a]) in s.store.blocks && wm[a] > MarkOf(s.store.mark, a);
  }

  lemma InvStep(u: Graph, m0: Marks, s: Sys, e: Event)
    requires Keyed(u) && Inv(u, m0, s) && Enabled(u, s, e)
    ensures Inv(u, m0, Apply(u, s, e))
  {
    match e
    case Push(t) => InvPush(u, m0, s, t);
    case Request(c) => InvRequest(u, m0, s, c);
    case Start => InvStart(u, m0, s);
    case Skip => InvSkip(u, m0, s);
    case Take => InvTake(u, m0, s);
    case Park => InvPark(u, m0, s);
    case Finish => InvFinish(u, m0, s);
    case Clean => InvClean(u, m0, s);
  }

  lemma {:induction false} InvRun(u: Graph, m0: Marks, s: Sys, es: seq<Event>)
    requires Keyed(u) && Inv(u, m0, s) && Runs(u, s, es)
    ensures Inv(u, m0, After(u, s, es))
    decreases |es|
  {
    if es == [] {
    } else {
      InvStep(u, m0, s, es[0]);
      InvRun(u, m0, Apply(u, s, es[0]), es[1..]);
    }
  }

  // ---- whole-run theorems ----

  lemma ReplayedRun(u: Graph, m0: Marks, es: seq<Event>)
    requires Keyed(u) && Runs(u, Init(m0), es)
    ensures Replays(u, m0, After(u, Init(m0), es))
  {
    InvInit(u, m0);
    InvRun(u, m0, Init(m0), es);
  }

  /** Exactly once: in no reachable state has a slot been executed twice, and every executed
      slot lies above the initial watermarks and at or below the current ones. */
  lemma ExecutedOnce(u: Graph, m0: Marks, es: seq<Event>)
    requires Keyed(u) && Runs(u, Init(m0), es)
    ensures var s := After(u, Init(m0), es);
      && NoDup(s.log)
      && forall t :: t in s.log ==> !Committed(m0, t) && Committed(Target(s), t)
  {
    ReplayedRun(u, m0, es);
    ReplayOnce(u, m0, After(u, Init(m0), es).finished);
  }

  /** Confluence: two runs that finished the same submissions executed the same log and reached
      the same watermarks, whatever the order in which blocks arrived and actors were scheduled. */
  lemma Confluence(u: Graph, m0: Marks, es1: seq<Event>, es2: seq<Event>)
    requires Keyed(u) && Runs(u, Init(m0), es1) && Runs(u, Init(m0), es2)
    requires After(u, Init(m0), es1).finished == After(u, Init(m0), es2).finished
    ensures After(u, Init(m0), es1).log == After(u, Init(m0), es2).log
    ensures Target(After(u, Init(m0), es1)) == Target(After(u, Init(m0), es2))
  {
    ReplayedRun(u, m0, es1);
    ReplayedRun(u, m0, es2);
  }

  /** A run that has finished more of the same submissions only extends the log. */
  lemma PrefixConsistency(u: Graph, m0: Marks, es1: seq<Event>, es2: seq<Event>)
    requires Keyed(u) && Runs(u, Init(m0), es1) && Runs(u, Init(m0), es2)
    requires After(u, Init(m0), es1).finished <= After(u, Init(m0), es2).finished
    ensures After(u, Init(m0), es1).log <= After(u, Init(m0), es2).log
  {
    hide Runs, After, Keyed, Init, ReplayLog, ReplayMarks;
    ReplayedRun(u, m0, es1);
    ReplayedRun(u, m0, es2);
    var f1, f2 := After(u, Init(m0), es1).finished, After(u, Init(m0), es2).finished;
    assert f2[..|f1|] == f1;
    var rest := ReplayPrefix(u, m0, f2, |f1|);
  }

  /** Registered pulls are not unregistered when answered. So delivering a block again would
      block the dag for ever exactly if its pull was parked since the last cleanup and the slot
      is still above the watermark; a first delivery never does. */
  lemma RepeatedPushBlocks(u: Graph, m0: Marks, es: seq<Event>, t: Slot)
    requires Keyed(u) && Runs(u, Init(m0), es)
    ensures var s := After(u, Init(m0), es);
      && (Replies(s, t) && !AwaitedBy(s.phase, t) <==> Replies(s, t) && t in s.pushed)
      && (t in u ==> (Deliver(u, s, t).stuck <==> Replies(s, t) && t in s.pushed))
  {
    InvInit(u, m0);
    InvRun(u, m0, Init(m0), es);
  }

  /** A cleanup forgets all registered pulls: right after it no delivery, first or repeated, blocks. */
  lemma CleanupUnblocks(u: Graph, m0: Marks, es: seq<Event>, t: Slot)
    requires Keyed(u) && Runs(u, Init(m0), es) && t in u && Enabled(u, After(u, Init(m0), es), Clean)
    ensures !Deliver(u, Apply(u, After(u, Init(m0), es), Clean), t).stuck
  {
    InvInit(u, m0);
    InvRun(u, m0, Init(m0), es);
  }

  // ---- submissions ----

  /** The submissions the run's requests make, in order. */
  ghost function Submissions(u: Graph, s: Sys, es: seq<Event>): seq<SubmitReq>
    requires Runs(u, s, es)
    decreases |es|
  {
    if es == [] then []
    else
      var sub := if es[0].Request? then SubmissionOf(s.store, es[0].commit) else None;
      (if sub.Some? then [sub.value] else []) + Submissions(u, Apply(u, s, es[0]), es[1..])
  }

  /** All submissions so far in the order the commitor takes them. */
  ghost function Line(s: Sys): seq<SubmitReq> {
    s.finished + (if s.phase.Pulling? then [s.phase.req] else []) + s.queue
  }

  lemma LineStep(u: Graph, s: Sys, e: Event)
    requires Enabled(u, s, e)
    ensures var sub := if e.Request? then SubmissionOf(s.store, e.commit) else None;
      Line(Apply(u, s, e)) == Line(s) + if sub.Some? then [sub.value] else []
  {
    hide SubmissionOf, AfterRequest, AfterPush, AfterClean, Log, Roots, RaiseAnchor;
  }

  lemma {:induction false} LineRun(u: Graph, s: Sys, es: seq<Event>)
    requires Runs(u, s, es)
    ensures Line(After(u, s, es)) == Line(s) + Submissions(u, s, es)
    decreases |es|
  {
    hide Line, Apply, Enabled, SubmissionOf;
    if es == [] {
      assert Line(s) + [] == Line(s);
    } else {
      LineStep(u, s, es[0]);
      LineRun(u, Apply(u, s, es[0]), es[1..]);
    }
  }

  /** In every run the submissions finished, the one being committed and those waiting are, in
      this order, all the submissions made: none is lost, repeated or overtaken. */
  lemma SubmissionsInOrder(u: Graph, m0: Marks, es: seq<Event>)
    requires Runs(u, Init(m0), es)
    ensures Line(After(u, Init(m0), es)) == Submissions(u, Init(m0), es)
  {
    LineRun(u, Init(m0), es);
  }

  /** The dag never blocks on a stale reply channel, and every cleanup it handles names slots
      inside its windows, so the slice bounds it computes are in range. */
  lemma HandlersSafe(u: Graph, m0: Marks, es: seq<Event>)
    requires Keyed(u) && Runs(u, Init(m0), es)
    ensures var s := After(u, Init(m0), es);
      && !s.stuck
      && (s.cleanup.Some? ==> forall a :: a in s.cleanup.value ==> Slot(a, s.cleanup.value[a]) in s.store.blocks)
  {
    InvInit(u, m0);
    InvRun(u, m0, Init(m0), es);
  }
}
