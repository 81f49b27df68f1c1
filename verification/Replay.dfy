/** What a whole sequence of submissions executes, as a function of the blocks and the
    submissions alone, and the properties of that log. */
module Replay {
  import opened Types
  import opened CausalGraph
  import opened CommitOrder
  import opened Anchors
  import opened Batches

  ghost function ReplayMarks(u: Graph, m0: Marks, reqs: seq<SubmitReq>): Marks {
    if reqs == [] then m0
    else CommitMarks(u, ReplayMarks(u, m0, reqs[..|reqs| - 1]), reqs[|reqs| - 1])
  }

  ghost function ReplayLog(u: Graph, m0: Marks, reqs: seq<SubmitReq>): seq<Slot>
    requires Keyed(u)
  {
    if reqs == [] then []
    else
      var last := |reqs| - 1;
      ReplayLog(u, m0, reqs[..last]) + CommitLog(u, ReplayMarks(u, m0, reqs[..last]), reqs[last])
  }

  lemma ReplaySnoc(u: Graph, m0: Marks, reqs: seq<SubmitReq>, r: SubmitReq)
    requires Keyed(u)
    ensures ReplayMarks(u, m0, reqs + [r]) == CommitMarks(u, ReplayMarks(u, m0, reqs), r)
    ensures ReplayLog(u, m0, reqs + [r])
         == ReplayLog(u, m0, reqs) + CommitLog(u, ReplayMarks(u, m0, reqs), r)
  {
    assert (reqs + [r])[..|reqs|] == reqs;
  }

  lemma {:induction false} ReplayPrefix(u: Graph, m0: Marks, reqs: seq<SubmitReq>, k: nat) returns (rest: seq<Slot>)
    requires Keyed(u) && k <= |reqs|
    ensures ReplayLog(u, m0, reqs) == ReplayLog(u, m0, reqs[..k]) + rest
    decreases |reqs|
  {
    hide ReplayLog, ReplayMarks, CommitLog, Keyed;
    if k == |reqs| {
      assert reqs[..k] == reqs;
      rest := [];
    } else {
      var pre, r := reqs[..|reqs| - 1], reqs[|reqs| - 1];
      assert pre[..k] == reqs[..k] && pre + [r] == reqs;
      rest := ReplayPrefix(u, m0, pre, k);
      ReplaySnoc(u, m0, pre, r);
      rest := rest + CommitLog(u, ReplayMarks(u, m0, pre), r);
    }
  }

  // ---- exactly once ----

  /** A commit executes pulled blocks only, each above the old watermark and at or below the
      new one; watermarks never fall. */
  lemma CommitWindow(u: Graph, m: Marks, req: SubmitReq)
    requires Keyed(u)
    ensures NoDup(CommitLog(u, m, req))
    ensures forall s :: s in CommitLog(u, m, req) ==>
              s in Pulled(u, m, req.slot) && !Committed(m, s) && Committed(CommitMarks(u, m, req), s)
    ensures forall s :: Committed(m, s) ==> Committed(CommitMarks(u, m, req), s)
  {
    var p := Pulled(u, m, req.slot);
    LogPartition(p, Roots(AnchorsOf(req, p)));
    MarksRise(u, m, req);
    forall s | s in CommitLog(u, m, req)
      ensures s in p && !Committed(m, s) && Committed(CommitMarks(u, m, req), s)
    {
      assert s in Elems(CommitLog(u, m, req));
    }
  }

  lemma MarksRise(u: Graph, m: Marks, req: SubmitReq)
    ensures forall s :: Committed(m, s) ==> Committed(CommitMarks(u, m, req), s)
    ensures forall s :: s in Pulled(u, m, req.slot) ==> Committed(CommitMarks(u, m, req), s)
  {
    var p := Pulled(u, m, req.slot);
    var wm := Tops(p);
    assert forall a :: a in wm ==> Slot(a, wm[a]) in p && wm[a] > MarkOf(m, a);
  }

  lemma {:induction false} ReplayOnce(u: Graph, m0: Marks, reqs: seq<SubmitReq>)
    requires Keyed(u)
    ensures NoDup(ReplayLog(u, m0, reqs))
    ensures forall s :: s in ReplayLog(u, m0, reqs) ==>
              s in u && !Committed(m0, s) && Committed(ReplayMarks(u, m0, reqs), s)
    ensures forall s :: Committed(m0, s) ==> Committed(ReplayMarks(u, m0, reqs), s)
    decreases |reqs|
  {
    if reqs == [] {
    } else {
      var pre, r := reqs[..|reqs| - 1], reqs[|reqs| - 1];
      ReplayOnce(u, m0, pre);
      var m := ReplayMarks(u, m0, pre);
      CommitWindow(u, m, r);
      hide CommitLog, CommitMarks, Pulled, Keyed, Committed;
      var a, b := ReplayLog(u, m0, pre), CommitLog(u, m, r);
      OnceConcat(m, a, b);
    }
  }

  lemma OnceConcat(m: Marks, a: seq<Slot>, b: seq<Slot>)
    requires NoDup(a) && NoDup(b)
    requires (forall s :: s in a ==> Committed(m, s)) && forall s :: s in b ==> !Committed(m, s)
    ensures NoDup(a + b) && forall s :: s in a + b <==> s in a || s in b
  {
    hide Committed;
    assert Elems(a) !! Elems(b);
    NoDupConcat(a, b);
  }

  /** Each submission found its whole history and kept its own slot as the round's anchor. */
  ghost predicate Sound(u: Graph, m0: Marks, reqs: seq<SubmitReq>) {
    forall i :: 0 <= i < |reqs| ==> SoundAt(u, ReplayMarks(u, m0, reqs[..i]), reqs[i])
  }

  ghost predicate SoundAt(u: Graph, m: Marks, req: SubmitReq) {
    Complete(u, m, req.slot) && NotRaised(req, Pulled(u, m, req.slot))
  }

  // ---- what the watermarks cover ----

  /** Every height between an author's watermark and a held block of that author is held. */
  ghost predicate NoGap(m: Marks, g: Graph) {
    forall s, h :: s in g && MarkOf(m, s.author) < h <= s.height ==> Slot(s.author, h) in g
  }

  /** `log` is exactly what lies above the watermarks `m` and at or below `m'`. */
  ghost predicate Covers(m: Marks, m': Marks, log: seq<Slot>) {
    forall s :: s in log <==> !Committed(m, s) && Committed(m', s)
  }

  lemma ExecutesAllPulled(u: Graph, m: Marks, req: SubmitReq)
    requires Keyed(u) && NotRaised(req, Pulled(u, m, req.slot))
    ensures Elems(CommitLog(u, m, req)) == Pulled(u, m, req.slot).Keys
  {
    var p := Pulled(u, m, req.slot);
    if req.slot in Live(u, m) {
      var k := RootAt(AnchorsOf(req, p), req.round);
      AnchorPartition(u, m, req, k);
    } else {
      ConeSelf(Live(u, m), req.slot);
      LogPartition(p, Roots(AnchorsOf(req, p)));
    }
  }

  /** A commit whose anchor was not raised executes everything it puts under the watermarks if
      and only if the pulled history skips no height of any author. */
  lemma CommitCoversExact(u: Graph, m: Marks, req: SubmitReq)
    requires Keyed(u) && NotRaised(req, Pulled(u, m, req.slot))
    ensures Covers(m, CommitMarks(u, m, req), CommitLog(u, m, req)) <==> NoGap(m, Pulled(u, m, req.slot))
  {
    hide CommitLog, Pulled, Keyed, NotRaised;
    var p, log, m' := Pulled(u, m, req.slot), CommitLog(u, m, req), CommitMarks(u, m, req);
    ExecutesAllPulled(u, m, req);
    CommitWindow(u, m, req);
    var wm := Tops(p);
    assert forall s :: s in log <==> s in p;
    if NoGap(m, p) {
      forall s | !Committed(m, s) && Committed(m', s) ensures s in p {
        assert s.author in wm && Slot(s.author, wm[s.author]) in p;
      }
    }
    if Covers(m, m', log) {
      forall s, h | s in p && MarkOf(m, s.author) < h <= s.height ensures Slot(s.author, h) in p {
        assert Committed(m', s);
        assert Slot(s.author, h) in log;
      }
    }
  }

  ghost predicate NoGaps(u: Graph, m0: Marks, reqs: seq<SubmitReq>) {
    forall i :: 0 <= i < |reqs| ==> NoGapAt(u, ReplayMarks(u, m0, reqs[..i]), reqs[i])
  }

  ghost predicate NoGapAt(u: Graph, m: Marks, req: SubmitReq) {
    NoGap(m, Pulled(u, m, req.slot))
  }

  /** Over any sequence of sound submissions: the log is exactly what the watermarks moved over
      if and only if no submission pulled a history with a gap. */
  lemma {:induction false} ReplayCoversExact(u: Graph, m0: Marks, reqs: seq<SubmitReq>)
    requires Keyed(u) && Sound(u, m0, reqs)
    ensures Covers(m0, ReplayMarks(u, m0, reqs), ReplayLog(u, m0, reqs)) <==> NoGaps(u, m0, reqs)
    decreases |reqs|
  {
    if reqs == [] {
    } else {
      var pre, r := reqs[..|reqs| - 1], reqs[|reqs| - 1];
      assert pre + [r] == reqs;
      SoundPrefix(u, m0, pre, r);
      ReplayCoversExact(u, m0, pre);
      CoversStep(u, m0, pre, r);
    }
  }

  lemma CoversStep(u: Graph, m0: Marks, pre: seq<SubmitReq>, r: SubmitReq)
    requires Keyed(u) && SoundAt(u, ReplayMarks(u, m0, pre), r)
    ensures Covers(m0, ReplayMarks(u, m0, pre + [r]), ReplayLog(u, m0, pre + [r])) <==>
              && Covers(m0, ReplayMarks(u, m0, pre), ReplayLog(u, m0, pre))
              && NoGapAt(u, ReplayMarks(u, m0, pre), r)
  {
    hide Covers, NoGap, CommitMarks, CommitLog, ReplayMarks, ReplayLog, Keyed, Committed;
    ReplaySnoc(u, m0, pre, r);
    ReplayOnce(u, m0, pre);
    var m := ReplayMarks(u, m0, pre);
    CommitCoversExact(u, m, r);
    CommitWindow(u, m, r);
    CoversConcat(m0, m, CommitMarks(u, m, r), ReplayLog(u, m0, pre), CommitLog(u, m, r));
  }

  /** The properties of each submission of a sequence are those of its prefix and of its last. */
  lemma SoundPrefix(u: Graph, m0: Marks, pre: seq<SubmitReq>, r: SubmitReq)
    ensures Sound(u, m0, pre + [r]) <==> Sound(u, m0, pre) && SoundAt(u, ReplayMarks(u, m0, pre), r)
    ensures NoGaps(u, m0, pre + [r]) <==> NoGaps(u, m0, pre) && NoGapAt(u, ReplayMarks(u, m0, pre), r)
  {
    hide ReplayMarks, SoundAt, NoGapAt;
    var reqs, k := pre + [r], |pre|;
    assert reqs[..k] == pre && reqs[k] == r;
    assert forall i :: 0 <= i < k ==> reqs[..i] == pre[..i] && reqs[i] == pre[i];
  }

  lemma CoversConcat(m0: Marks, m: Marks, m': Marks, a: seq<Slot>, b: seq<Slot>)
    requires forall s :: s in a ==> !Committed(m0, s) && Committed(m, s)
    requires forall s :: s in b ==> !Committed(m, s) && Committed(m', s)
    requires forall s :: Committed(m0, s) ==> Committed(m, s)
    requires forall s :: Committed(m, s) ==> Committed(m', s)
    ensures Covers(m0, m', a + b) <==> Covers(m0, m, a) && Covers(m, m', b)
  {
    hide Committed;
    assert forall s :: s in a + b <==> s in a || s in b;
  }

  // ---- histories in which every block references its author's previous block ----

  ghost predicate ParentClosed(u: Graph) {
    forall s :: s in u && s.height > 0 ==> Refs(u[s], Slot(s.author, s.height - 1))
  }

  ghost predicate FromGenesis(m: Marks) {
    forall a :: a in m ==> m[a] >= -1
  }

  lemma {:induction false} PulledDownward(u: Graph, m: Marks, r: Slot, s: Slot, h: int)
    requires ParentClosed(u) && FromGenesis(m) && Complete(u, m, r)
    requires s in Pulled(u, m, r) && MarkOf(m, s.author) < h <= s.height
    ensures Slot(s.author, h) in Pulled(u, m, r)
    ensures Slot(s.author, h) in Cone(Pulled(u, m, r), s)
    decreases s.height
  {
    var p := Pulled(u, m, r);
    ConeSelf(p, s);
    if h < s.height {
      var t := Slot(s.author, s.height - 1);
      assert Refs(u[s], t);
      assert t in Live(u, m) && Refs(Live(u, m)[s], t);
      ConeStep(Live(u, m), r, s, t);
      assert Refs(p[s], t);
      ConeStep(p, s, s, t);
      PulledDownward(u, m, r, t, h);
      ConeMonotone(p, s, t);
    }
  }

  /** Every lower block of an author lies in the history of each higher one. */
  ghost predicate LinesDescend(g: Graph) {
    forall s, t :: s in g && t in g && s.author == t.author && t.height < s.height ==> t in Cone(g, s)
  }

  ghost predicate InHeightOrder(log: seq<Slot>) {
    forall i, j :: 0 <= i < j < |log| && log[i].author == log[j].author ==> log[i].height < log[j].height
  }

  lemma {:induction false} LogInHeightOrder(g: Graph, roots: seq<Slot>)
    requires LinesDescend(g)
    ensures InHeightOrder(Log(g, roots))
    decreases |roots|
  {
    if roots == [] {
    } else {
      var k := |roots| - 1;
      var pre, bat := Log(g, roots[..k]), Batch(g, roots, k);
      LogInHeightOrder(g, roots[..k]);
      LogPartition(g, roots[..k]);
      ConesClosed(g, roots[..k]);
      forall i, j | 0 <= i < |pre| && 0 <= j < |bat| && pre[i].author == bat[j].author
        ensures pre[i].height < bat[j].height
      {
        assert pre[i] in Elems(pre) && bat[j] in Elems(bat);
        assert pre[i] in Cones(g, roots[..k]) && bat[j] !in Cones(g, roots[..k]);
        if bat[j].height < pre[i].height {
          ConeLeast(g, pre[i], Cones(g, roots[..k]));
        }
      }
    }
  }

  lemma CommitParentClosed(u: Graph, m: Marks, req: SubmitReq)
    requires Keyed(u) && ParentClosed(u) && FromGenesis(m) && SoundAt(u, m, req)
    ensures InHeightOrder(CommitLog(u, m, req))
    ensures FromGenesis(CommitMarks(u, m, req))
    ensures Covers(m, CommitMarks(u, m, req), CommitLog(u, m, req))
  {
    var p := Pulled(u, m, req.slot);
    forall s, t | s in p && t in p && s.author == t.author && t.height < s.height ensures t in Cone(p, s) {
      PulledDownward(u, m, req.slot, s, t.height);
    }
    LogInHeightOrder(p, Roots(AnchorsOf(req, p)));
    CommitWindow(u, m, req);
    GenesisKept(u, m, req);
    assert NoGap(m, p) by {
      forall s, h | s in p && MarkOf(m, s.author) < h <= s.height ensures Slot(s.author, h) in p {
        PulledDownward(u, m, req.slot, s, h);
      }
    }
    hide Log, Pulled, ParentClosed, FromGenesis;
    CommitCoversExact(u, m, req);
  }

  lemma GenesisKept(u: Graph, m: Marks, req: SubmitReq)
    requires FromGenesis(m)
    ensures FromGenesis(CommitMarks(u, m, req))
  {
    MarksRise(u, m, req);
    var wm := Tops(Pulled(u, m, req.slot));
    assert forall a :: a in wm ==> !Committed(m, Slot(a, wm[a]));
  }

  lemma {:induction false} ReplayParentClosed(u: Graph, m0: Marks, reqs: seq<SubmitReq>)
    requires Keyed(u) && ParentClosed(u) && FromGenesis(m0) && Sound(u, m0, reqs)
    ensures FromGenesis(ReplayMarks(u, m0, reqs))
    ensures InHeightOrder(ReplayLog(u, m0, reqs))
    ensures Covers(m0, ReplayMarks(u, m0, reqs), ReplayLog(u, m0, reqs))
    decreases |reqs|
  {
    hide SoundAt, Sound, NoGaps, ParentClosed, CommitLog, CommitMarks, Committed;
    if reqs == [] {
    } else {
      var pre, r := reqs[..|reqs| - 1], reqs[|reqs| - 1];
      assert pre + [r] == reqs;
      SoundPrefix(u, m0, pre, r);
      ReplayParentClosed(u, m0, pre);
      ParentClosedStep(u, m0, pre, r);
    }
  }

  lemma ParentClosedStep(u: Graph, m0: Marks, pre: seq<SubmitReq>, r: SubmitReq)
    requires Keyed(u) && ParentClosed(u) && FromGenesis(ReplayMarks(u, m0, pre)) && SoundAt(u, ReplayMarks(u, m0, pre), r)
    requires InHeightOrder(ReplayLog(u, m0, pre)) && Covers(m0, ReplayMarks(u, m0, pre), ReplayLog(u, m0, pre))
    ensures FromGenesis(ReplayMarks(u, m0, pre + [r])) && InHeightOrder(ReplayLog(u, m0, pre + [r]))
    ensures Covers(m0, ReplayMarks(u, m0, pre + [r]), ReplayLog(u, m0, pre + [r]))
  {
    hide ParentClosed, FromGenesis, InHeightOrder, CommitMarks, CommitLog, ReplayMarks, ReplayLog, Keyed, Committed, SoundAt;
    ReplaySnoc(u, m0, pre, r);
    ReplayOnce(u, m0, pre);
    var m := ReplayMarks(u, m0, pre);
    CommitParentClosed(u, m, r);
    CommitWindow(u, m, r);
    HeightOrderConcat(m, ReplayLog(u, m0, pre), CommitLog(u, m, r));
    CoversConcat(m0, m, CommitMarks(u, m, r), ReplayLog(u, m0, pre), CommitLog(u, m, r));
  }

  lemma HeightOrderConcat(m: Marks, a: seq<Slot>, b: seq<Slot>)
    requires InHeightOrder(a) && InHeightOrder(b)
    requires forall s :: s in a ==> Committed(m, s)
    requires forall s :: s in b ==> !Committed(m, s)
    ensures InHeightOrder(a + b)
  {
    forall i, j | 0 <= i < |a| && 0 <= j < |b| && a[i].author == b[j].author ensures a[i].height < b[j].height {
      assert a[i] in a && b[j] in b;
    }
  }

  /** The heights `a` has executed, in execution order. */
  ghost function Heights(log: seq<Slot>, a: NodeID): seq<int> {
    if log == [] then []
    else
      var pre, s := log[..|log| - 1], log[|log| - 1];
      if s.author == a then Heights(pre, a) + [s.height] else Heights(pre, a)
  }

  lemma {:induction false} HeightsOf(log: seq<Slot>, a: NodeID)
    requires InHeightOrder(log)
    ensures Increasing(Heights(log, a))
    ensures forall h :: h in Heights(log, a) <==> Slot(a, h) in log
    decreases |log|
  {
    if log == [] {
    } else {
      var k := |log| - 1;
      HeightsOf(log[..k], a);
      var hs := Heights(log[..k], a);
      assert log == log[..k] + [log[k]];
      forall i | 0 <= i < |hs| && log[k].author == a ensures hs[i] < log[k].height {
        assert hs[i] in hs;
        var j :| 0 <= j < k && log[j] == Slot(a, hs[i]);
      }
    }
  }

  lemma GapFree(hs: seq<int>, top: int)
    requires top >= -1 && Increasing(hs) && forall h :: h in hs <==> 0 <= h <= top
    ensures hs == UpTo(top + 1)
  {
    var want := UpTo(top + 1);
    forall h ensures h in hs <==> h in want {
      assert 0 <= h <= top ==> want[h] == h;
    }
    IncreasingUnique(hs, want);
  }

  /** Along every run of sound submissions over a parent-closed history, each author's blocks
      are executed in the order 0, 1, 2, ... up to the author's watermark, without a gap. */
  lemma ReplayProjection(u: Graph, m0: Marks, reqs: seq<SubmitReq>, a: NodeID)
    requires Keyed(u) && ParentClosed(u) && Sound(u, m0, reqs)
    requires a in m0 && forall x :: x in m0 ==> m0[x] == -1
    ensures MarkOf(ReplayMarks(u, m0, reqs), a) >= -1
    ensures Heights(ReplayLog(u, m0, reqs), a) == UpTo(MarkOf(ReplayMarks(u, m0, reqs), a) + 1)
  {
    hide ReplayMarks, ReplayLog, Heights, ParentClosed, Sound;
    var log, top := ReplayLog(u, m0, reqs), MarkOf(ReplayMarks(u, m0, reqs), a);
    ReplayParentClosed(u, m0, reqs);
    HeightsOf(log, a);
    forall h ensures h in Heights(log, a) <==> 0 <= h <= top {
      assert Slot(a, h) in log <==> 0 <= h <= top;
    }
    GapFree(Heights(log, a), top);
  }
}
