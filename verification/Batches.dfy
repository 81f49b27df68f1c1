/** What committing a list of anchors executes, said without the shrinking map: the k-th
    batch is the k-th anchor's history minus the histories of the anchors before it. */
module Batches {
  import opened Types
  import opened CausalGraph
  import opened CommitOrder
  import opened Anchors

  ghost function Fresh(g: Graph, roots: seq<Slot>, k: nat): set<Slot>
    requires k < |roots|
  {
    Cone(g, roots[k]) - Cones(g, roots[..k])
  }

  ghost function Batch(g: Graph, roots: seq<Slot>, k: nat): seq<Slot>
    requires k < |roots|
  {
    Arrange(roots[k].author, Fresh(g, roots, k))
  }

  ghost function Log(g: Graph, roots: seq<Slot>): seq<Slot> {
    if roots == [] then []
    else Log(g, roots[..|roots| - 1]) + Batch(g, roots, |roots| - 1)
  }

  lemma LogSnoc(g: Graph, roots: seq<Slot>, k: nat)
    requires k < |roots|
    ensures Log(g, roots[..k + 1]) == Log(g, roots[..k]) + Batch(g, roots, k)
    ensures Cones(g, roots[..k + 1]) == Cones(g, roots[..k]) + Cone(g, roots[k])
  {
    assert roots[..k + 1] == roots[..k] + [roots[k]];
    assert roots[..k + 1][..k] == roots[..k];
    ConesSnoc(g, roots[..k], roots[k]);
  }

  /** Each slot of the anchors' histories is executed, once, and nothing else is. */
  lemma {:induction false} LogPartition(g: Graph, roots: seq<Slot>)
    ensures Elems(Log(g, roots)) == Cones(g, roots)
    ensures NoDup(Log(g, roots))
    decreases |roots|
  {
    if roots == [] {
    } else {
      var k := |roots| - 1;
      var pre, bat := Log(g, roots[..k]), Batch(g, roots, k);
      LogPartition(g, roots[..k]);
      assert roots[..k + 1] == roots;
      LogSnoc(g, roots, k);
      SortedNoDup(roots[k].author, bat);
      ElemsConcat(pre, bat);
      NoDupConcat(pre, bat);
    }
  }

  /** One anchor on the shrinking map does what the reference definition says. */
  lemma ShrinkStep(g: Graph, roots: seq<Slot>, k: nat)
    requires k < |roots|
    ensures Cone(g - Cones(g, roots[..k]), roots[k]) == Fresh(g, roots, k)
    ensures g - Cones(g, roots[..k]) - Fresh(g, roots, k) == g - Cones(g, roots[..k + 1])
  {
    ConesClosed(g, roots[..k]);
    ConeAfterRemoval(g, Cones(g, roots[..k]), roots[k]);
    LogSnoc(g, roots, k);
  }

  /** Causality: a reference of an executed block that the commit pulled is executed in the
      same batch or an earlier one. */
  lemma BatchCausal(g: Graph, roots: seq<Slot>, k: nat, s: Slot, t: Slot)
    requires k < |roots| && s in Batch(g, roots, k) && s in g && t in g && Refs(g[s], t)
    ensures exists j :: 0 <= j <= k && t in Batch(g, roots, j)
  {
    assert s in Elems(Batch(g, roots, k));
    ConeStep(g, roots[k], s, t);
    BatchOf(g, roots, k, t);
  }

  lemma {:induction false} BatchOf(g: Graph, roots: seq<Slot>, k: nat, t: Slot)
    requires k < |roots| && t in Cone(g, roots[k])
    ensures exists j :: 0 <= j <= k && t in Batch(g, roots, j)
  {
    if t in Cones(g, roots[..k]) {
      var i :| 0 <= i < k && t in Cone(g, roots[..k][i]);
      BatchOf(g, roots, i, t);
    } else {
      assert t in Elems(Batch(g, roots, k));
    }
  }

  // ---- the anchors of one submission, in round order ----

  ghost predicate Increasing(xs: seq<int>) {
    forall i, j :: 0 <= i < j < |xs| ==> xs[i] < xs[j]
  }

  // Rounds are listed as the heights of one author's slots are, so the listing of a set of rounds
  // is as unique as the batch order.

  ghost function AsSlots(xs: seq<int>): (ss: seq<Slot>)
    ensures |ss| == |xs| && forall i :: 0 <= i < |xs| ==> ss[i] == Slot(0, xs[i])
  {
    seq(|xs|, i requires 0 <= i < |xs| => Slot(0, xs[i]))
  }

  ghost function SlotsOf(ss: set<int>): set<Slot> {
    set x | x in ss :: Slot(0, x)
  }

  lemma AsSlotsLists(xs: seq<int>)
    requires Increasing(xs)
    ensures Lists(0, SlotsOf(Elems(xs)), AsSlots(xs))
  {
    forall s | s in SlotsOf(Elems(xs)) ensures s in AsSlots(xs) {
      var i :| 0 <= i < |xs| && xs[i] == s.height;
      assert AsSlots(xs)[i] == s;
    }
  }

  ghost function Ascending(ss: set<int>): (xs: seq<int>)
    ensures Increasing(xs) && Elems(xs) == ss
  {
    AscendingExists(ss);
    var xs :| Increasing(xs) && Elems(xs) == ss;
    xs
  }

  lemma AscendingExists(ss: set<int>)
    ensures exists xs :: Increasing(xs) && Elems(xs) == ss
  {
    var slots := Arrange(0, SlotsOf(ss));
    HeightsList(ss, slots, seq(|slots|, i requires 0 <= i < |slots| => slots[i].height));
  }

  lemma HeightsList(ss: set<int>, slots: seq<Slot>, xs: seq<int>)
    requires Lists(0, SlotsOf(ss), slots)
    requires |xs| == |slots| && forall i :: 0 <= i < |xs| ==> xs[i] == slots[i].height
    ensures Increasing(xs) && Elems(xs) == ss
  {
    forall i | 0 <= i < |xs| ensures slots[i].author == 0 && xs[i] in ss {
      assert slots[i] in Elems(slots);
    }
    forall x | x in ss ensures x in xs {
      assert Slot(0, x) in Elems(slots);
      var i :| 0 <= i < |slots| && slots[i] == Slot(0, x);
      assert xs[i] == x;
    }
  }

  lemma AscendingUnique(ss: set<int>, xs: seq<int>)
    requires Increasing(xs) && Elems(xs) == ss
    ensures xs == Ascending(ss)
  {
    IncreasingUnique(xs, Ascending(ss));
  }

  lemma IncreasingUnique(xs: seq<int>, ys: seq<int>)
    requires Increasing(xs) && Increasing(ys) && Elems(xs) == Elems(ys)
    ensures xs == ys
  {
    AsSlotsLists(xs);
    AsSlotsLists(ys);
    ListingUnique(0, SlotsOf(Elems(xs)), AsSlots(xs), AsSlots(ys));
    assert forall i :: 0 <= i < |xs| ==> xs[i] == AsSlots(xs)[i].height && ys[i] == AsSlots(ys)[i].height;
  }

  /** The anchors of a submission over the blocks it pulled, lowest round first. */
  ghost function Roots(anchors: map<int, Slot>): (roots: seq<Slot>)
    ensures |roots| == |Ascending(anchors.Keys)|
  {
    var rounds := Ascending(anchors.Keys);
    assert forall i :: 0 <= i < |rounds| ==> rounds[i] in Elems(rounds);
    seq(|rounds|, i requires 0 <= i < |rounds| => anchors[rounds[i]])
  }

  ghost function CommitLog(u: Graph, m: Marks, req: SubmitReq): seq<Slot>
    requires Keyed(u)
  {
    var p := Pulled(u, m, req.slot);
    Log(p, Roots(AnchorsOf(req, p)))
  }

  ghost function CommitMarks(u: Graph, m: Marks, req: SubmitReq): Marks {
    m + Tops(Pulled(u, m, req.slot))
  }

  /** Causality of a whole commit: each reference of an executed block was at or below the
      watermark, or is executed in the same anchor batch or an earlier one. */
  lemma CommitCausal(u: Graph, m: Marks, req: SubmitReq, k: nat, s: Slot, t: Slot)
    requires Keyed(u) && Complete(u, m, req.slot)
    requires var p := Pulled(u, m, req.slot);
             var roots := Roots(AnchorsOf(req, p));
             k < |roots| && s in Batch(p, roots, k)
    requires s in u && Refs(u[s], t)
    ensures var p := Pulled(u, m, req.slot);
            var roots := Roots(AnchorsOf(req, p));
            Committed(m, t) || exists j :: 0 <= j <= k && t in Batch(p, roots, j)
  {
    var g, p := Live(u, m), Pulled(u, m, req.slot);
    var roots := Roots(AnchorsOf(req, p));
    assert s in Elems(Batch(p, roots, k));
    if !Committed(m, t) {
      assert s in p && t in g && Refs(g[s], t);
      ConeStep(g, req.slot, s, t);
      BatchCausal(p, roots, k, s, t);
    }
  }

  /** The log starts with the batches of the first anchors. */
  lemma {:induction false} LogSplit(g: Graph, roots: seq<Slot>, k: nat) returns (rest: seq<Slot>)
    requires k <= |roots|
    ensures Log(g, roots) == Log(g, roots[..k]) + rest
    decreases |roots|
  {
    hide Batch, Fresh, Cone;
    if k == |roots| {
      assert roots[..k] == roots;
      rest := [];
    } else {
      var last := |roots| - 1;
      assert roots[..last][..k] == roots[..k];
      rest := LogSplit(g, roots[..last], k);
      rest := rest + Batch(g, roots, last);
    }
  }

  /** Anchors are committed lowest round first: the history of round r's anchor is executed, all
      of it, before any slot outside the histories of the anchors up to round r. */
  lemma AnchorFirst(u: Graph, m: Marks, req: SubmitReq, r: int, i: nat, j: nat)
    requires Keyed(u) && r in AnchorsOf(req, Pulled(u, m, req.slot))
    requires i < |CommitLog(u, m, req)| && j < |CommitLog(u, m, req)|
    requires var p := Pulled(u, m, req.slot);
             CommitLog(u, m, req)[i] in Cone(p, AnchorsOf(req, p)[r]) && OutsideUpTo(req, p, r, CommitLog(u, m, req)[j])
    ensures i < j
  {
    var p := Pulled(u, m, req.slot);
    var anchors := AnchorsOf(req, p);
    var k := RootAt(anchors, r);
    hide AnchorsOf, Pulled, Cone, Log;
    FirstRoots(p, req, r, k, CommitLog(u, m, req)[j]);
    SplitOrder(p, Roots(anchors), k, i, j);
  }

  /** `s` lies in no history of an anchor of round r or lower. */
  ghost predicate OutsideUpTo(req: SubmitReq, p: Graph, r: int, s: Slot)
    requires Keyed(p)
  {
    var anchors := AnchorsOf(req, p);
    forall x :: x in anchors && x <= r ==> s !in Cone(p, anchors[x])
  }

  lemma FirstRoots(p: Graph, req: SubmitReq, r: int, k: nat, s: Slot)
    requires Keyed(p) && OutsideUpTo(req, p, r, s)
    requires var rounds := Ascending(AnchorsOf(req, p).Keys); k < |rounds| && rounds[k] == r
    ensures s !in Cones(p, Roots(AnchorsOf(req, p))[..k + 1])
  {
    var anchors := AnchorsOf(req, p);
    var rounds, roots := Ascending(anchors.Keys), Roots(anchors);
    forall q | 0 <= q < k + 1 ensures rounds[q] in anchors && rounds[q] <= r && roots[..k + 1][q] == anchors[rounds[q]] {
      assert rounds[q] in Elems(rounds);
    }
  }

  lemma SplitOrder(p: Graph, roots: seq<Slot>, k: nat, i: nat, j: nat)
    requires k < |roots| && i < |Log(p, roots)| && j < |Log(p, roots)|
    requires Log(p, roots)[i] in Cone(p, roots[k]) && Log(p, roots)[j] !in Cones(p, roots[..k + 1])
    ensures i < j
  {
    hide Log, Cone;
    var first, log := Log(p, roots[..k + 1]), Log(p, roots);
    var rest := LogSplit(p, roots, k + 1);
    LogPartition(p, roots[..k + 1]);
    LogPartition(p, roots);
    assert roots[..k + 1][k] == roots[k];
    ConeInCones(p, roots[..k + 1], k);
    assert log[i] in Elems(first);
    var i' :| 0 <= i' < |first| && first[i'] == log[i];
    assert log[i'] == log[i];
    assert forall x :: 0 <= x < |first| ==> first[x] in Elems(first) && log[x] == first[x];
  }

  lemma AnchorExecuted(u: Graph, m: Marks, req: SubmitReq, r: int)
    requires Keyed(u) && r in AnchorsOf(req, Pulled(u, m, req.slot))
    ensures var p := Pulled(u, m, req.slot); Cone(p, AnchorsOf(req, p)[r]) <= Elems(CommitLog(u, m, req))
  {
    hide AnchorsOf, Cone, Log;
    var p := Pulled(u, m, req.slot);
    var k := RootAt(AnchorsOf(req, p), r);
    LogPartition(p, Roots(AnchorsOf(req, p)));
    ConeInCones(p, Roots(AnchorsOf(req, p)), k);
  }

  /** In `log` the history of `a` comes before all that no anchor up to round r reaches. */
  ghost predicate GoesFirst(req: SubmitReq, p: Graph, r: int, a: Slot, log: seq<Slot>)
    requires Keyed(p)
  {
    forall i, j :: 0 <= i < |log| && 0 <= j < |log| && log[i] in Cone(p, a) && OutsideUpTo(req, p, r, log[j]) ==> i < j
  }

  /** So a leader known but not yet committed goes first: if the history of a submission holds a
      block of an earlier such leader's round, above that round's first block, then some block of
      that leader and round, at or above it, has its whole history executed before everything
      that no anchor up to that round reaches. */
  lemma EarlierLeaderFirst(u: Graph, m: Marks, req: SubmitReq, s: Slot) returns (a: Slot)
    requires Keyed(u) && s in Pulled(u, m, req.slot)
    requires var h := u[s].header;
      h.round != req.round && h.round in req.uncommitted && s.author == req.uncommitted[h.round] && s.height > h.firstRefH
    ensures a in u && a.author == s.author && a.height >= s.height && u[a].header.round == u[s].header.round
    ensures Cone(Pulled(u, m, req.slot), a) <= Elems(CommitLog(u, m, req))
    ensures GoesFirst(req, Pulled(u, m, req.slot), u[s].header.round, a, CommitLog(u, m, req))
  {
    hide AnchorsOf, Cone, CommitLog, OutsideUpTo;
    var p, r, log := Pulled(u, m, req.slot), u[s].header.round, CommitLog(u, m, req);
    AnchorsExact(req, p);
    a := AnchorsOf(req, p)[r];
    AnchorExecuted(u, m, req, r);
    hide Pulled;
    forall i, j | 0 <= i < |log| && 0 <= j < |log| && log[i] in Cone(p, a) && OutsideUpTo(req, p, r, log[j])
      ensures i < j
    {
      AnchorFirst(u, m, req, r, i, j);
    }
  }

  lemma EmptyCommit(u: Graph, m: Marks, req: SubmitReq)
    requires Keyed(u) && Pulled(u, m, req.slot) == map[]
    ensures CommitLog(u, m, req) == []
  {
    var p := Pulled(u, m, req.slot);
    var log := CommitLog(u, m, req);
    assert log == [] || log[0] in Elems(log);
    LogPartition(p, Roots(AnchorsOf(req, p)));
  }

  lemma EmptyTops(u: Graph, m: Marks, req: SubmitReq)
    requires Pulled(u, m, req.slot) == map[]
    ensures CommitMarks(u, m, req) == m
  {
    TopsUnique(map[], Tops(map[]), map[]);
  }

  /** No pulled leader block of the submitted round is above the submitted slot. */
  ghost predicate NotRaised(req: SubmitReq, g: Graph) {
    forall s :: CandidateAt(req, g, s, req.round) ==> s.height <= req.slot.height
  }

  lemma PulledFromRoot(u: Graph, m: Marks, s: Slot)
    requires s in Live(u, m)
    ensures s in Pulled(u, m, s)
    ensures Cone(Pulled(u, m, s), s) == Pulled(u, m, s).Keys
  {
    ConeSelf(Live(u, m), s);
    ConeInsideCone(Live(u, m), s, s);
  }

  lemma CoveringRoot(g: Graph, roots: seq<Slot>, k: nat)
    requires k < |roots| && Cone(g, roots[k]) == g.Keys
    ensures Cones(g, roots) == g.Keys
  {
    ConeInCones(g, roots, k);
  }

  lemma RootAt(anchors: map<int, Slot>, r: int) returns (k: nat)
    requires r in anchors
    ensures k < |Roots(anchors)| && Ascending(anchors.Keys)[k] == r && Roots(anchors)[k] == anchors[r]
  {
    assert r in Elems(Ascending(anchors.Keys));
    k :| 0 <= k < |Ascending(anchors.Keys)| && Ascending(anchors.Keys)[k] == r;
  }

  /** Anchor partition. Unless the submitted round's anchor was raised, nothing that was
      pulled is left once that anchor is done, and the log is the pulled set, each slot once. */
  lemma AnchorPartition(u: Graph, m: Marks, req: SubmitReq, k: nat)
    requires Keyed(u) && req.slot in Live(u, m)
    requires NotRaised(req, Pulled(u, m, req.slot))
    requires var rounds := Ascending(AnchorsOf(req, Pulled(u, m, req.slot)).Keys);
             k < |rounds| && rounds[k] == req.round
    ensures var p := Pulled(u, m, req.slot);
            Cones(p, Roots(AnchorsOf(req, p))[..k + 1]) == p.Keys
    ensures Elems(CommitLog(u, m, req)) == Pulled(u, m, req.slot).Keys
    ensures NoDup(CommitLog(u, m, req))
  {
    var p := Pulled(u, m, req.slot);
    var roots := Roots(AnchorsOf(req, p));
    PulledFromRoot(u, m, req.slot);
    assert roots[..k + 1][k] == roots[k] == req.slot;
    CoveringRoot(p, roots[..k + 1], k);
    CoveringRoot(p, roots, k);
    LogPartition(p, roots);
  }

  /** A raised anchor leaves the submitted slot itself unexecuted. */
  lemma NotExecutedWhenRaised(u: Graph, m: Marks, req: SubmitReq)
    requires Keyed(u) && req.slot in Live(u, m) && u[req.slot].header.round == req.round
    requires Acyclic(Pulled(u, m, req.slot))
    ensures req.slot in CommitLog(u, m, req) ==> NotRaised(req, Pulled(u, m, req.slot))
  {
    var p := Pulled(u, m, req.slot);
    var anchors := AnchorsOf(req, p);
    var roots := Roots(anchors);
    PulledFromRoot(u, m, req.slot);
    LogPartition(p, roots);
    if req.slot in CommitLog(u, m, req) {
      assert req.slot in Elems(Log(p, roots));
      var i :| 0 <= i < |roots| && req.slot in Cone(p, roots[i]);
      var r := Ascending(anchors.Keys)[i];
      assert r in Elems(Ascending(anchors.Keys));
      assert roots[i] == anchors[r];
      ConeSelf(p, roots[i]);
      assert Reaches(p, req.slot, roots[i]) && Reaches(p, roots[i], req.slot);
      assert r == req.round;
    }
  }

  /** Exactly when a commit executes all it pulled: in an acyclic history whose submitted
      slot belongs to the submitted round, if and only if the anchor was not raised. */
  lemma PartitionExact(u: Graph, m: Marks, req: SubmitReq)
    requires Keyed(u) && req.slot in Live(u, m) && u[req.slot].header.round == req.round
    requires Acyclic(Pulled(u, m, req.slot))
    ensures Elems(CommitLog(u, m, req)) == Pulled(u, m, req.slot).Keys
       <==> NotRaised(req, Pulled(u, m, req.slot))
  {
    var p := Pulled(u, m, req.slot);
    PulledFromRoot(u, m, req.slot);
    if NotRaised(req, p) {
      var k := RootAt(AnchorsOf(req, p), req.round);
      AnchorPartition(u, m, req, k);
    }
    NotExecutedWhenRaised(u, m, req);
    assert req.slot in Elems(CommitLog(u, m, req)) ==> req.slot in CommitLog(u, m, req);
  }
}
