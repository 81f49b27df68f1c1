/** The commitor's two procedures, as the loops the source runs, proved against the
    declarative description in `Anchors` and `Batches`. */
module Commitor {
  import opened Types
  import opened CausalGraph
  import opened CommitOrder
  import opened Anchors
  import opened Pull
  import opened Batches

  /** Executes the history of `anchor` inside `pulled` and deletes it from `pulled`. */
  method CommitAnchor(anchor: Slot, pulled: Graph) returns (rest: Graph, executed: seq<Slot>)
    requires Keyed(pulled)
    ensures executed == Arrange(anchor.author, Cone(pulled, anchor))
    ensures InBatchOrder(anchor.author, executed) && Elems(executed) == Cone(pulled, anchor)
    ensures rest == pulled - Cone(pulled, anchor)
  {
    var ordered := Traverse(anchor, pulled);
    ordered := SortSlots(anchor.author, ordered);
    SortedNoDup(anchor.author, ordered);
    rest, executed := Execute(ordered, pulled);
  }

  method Execute(ordered: seq<Slot>, pulled: Graph) returns (rest: Graph, executed: seq<Slot>)
    requires Keyed(pulled) && NoDup(ordered) && Elems(ordered) <= pulled.Keys
    ensures executed == ordered && rest == pulled - Elems(ordered)
  {
    rest, executed := pulled, [];
    for i := 0 to |ordered|
      invariant executed == ordered[..i]
      invariant rest == pulled - Elems(ordered[..i])
    {
      var s := ordered[i];
      assert s in Elems(ordered);
      assert s !in Elems(ordered[..i]);
      assert ordered[..i + 1] == ordered[..i] + [s];
      ElemsConcat(ordered[..i], [s]);
      executed := executed + [rest[s].header.slot];
      rest := rest - {s};
    }
    assert ordered[..|ordered|] == ordered;
  }

  /** Breadth-first traversal from `anchor`; skips slots that are not in `pulled`. */
  method Traverse(anchor: Slot, pulled: Graph) returns (ordered: seq<Slot>)
    ensures NoDup(ordered) && Elems(ordered) == Cone(pulled, anchor)
  {
    ghost var cone := Cone(pulled, anchor);
    var visited: set<Slot>, q := {}, [anchor];
    ordered := [];
    ConeSelf(pulled, anchor);
    while |q| > 0
      invariant NoDup(ordered) && Elems(ordered) == visited && visited <= cone
      invariant forall s :: s in q && s in pulled ==> s in cone
      invariant anchor in visited || anchor in q || anchor !in pulled
      invariant forall s, t {:trigger Refs(pulled[s], t)} ::
                  s in visited && t in pulled && Refs(pulled[s], t) ==> t in visited || t in q
      decreases pulled.Keys - visited, |q|
    {
      var head := q[0];
      ghost var q0 := q;
      assert forall t :: t in q0 <==> t == head || t in q0[1..];
      q := q[1..];
      if head in pulled && head !in visited {
        var refs := RefSlots(pulled[head]);
        QueuedRefs(pulled, anchor, head);
        assert head !in ordered by { assert head !in Elems(ordered); }
        visited := visited + {head};
        ordered := ordered + [head];
        q := q + refs;
        assert forall t :: t in q <==> t in q0[1..] || t in refs;
      }
    }
    assert Closed(pulled, visited);
    if anchor in pulled {
      ConeLeast(pulled, anchor, visited);
    }
  }

  lemma QueuedRefs(g: Graph, r: Slot, s: Slot)
    requires s in Cone(g, r)
    ensures forall t :: t in RefSlots(g[s]) <==> Refs(g[s], t)
    ensures forall t :: t in RefSlots(g[s]) && t in g ==> t in Cone(g, r)
  {
    forall t ensures t in RefSlots(g[s]) <==> Refs(g[s], t) {
      InRefSlots(g[s], t);
    }
    forall t | t in RefSlots(g[s]) && t in g ensures t in Cone(g, r) {
      ConeStep(g, r, s, t);
    }
  }

  /** Pulls, picks anchors, executes them in round order and computes the new watermarks.
      `u` holds the answer to every pull that is issued; `None` means no cleanup is sent. */
  method Commit2(u: Graph, m: Marks, req: SubmitReq) returns (log: seq<Slot>, wm: Option<Marks>)
    requires Keyed(u) && Complete(u, m, req.slot)
    ensures log == CommitLog(u, m, req)
    ensures wm == if Committed(m, req.slot) then None else Some(Tops(Pulled(u, m, req.slot)))
  {
    var pulled, anchors := PullAll(u, m, req);
    ConeSelf(Live(u, m), req.slot);
    if |pulled| == 0 {
      EmptyCommit(u, m, req);
      return [], None;
    }
    var tops := Watermarks(pulled);
    wm := Some(tops);
    log := CommitRounds(pulled, anchors);
  }

  /** Commits the anchors lowest round first, each over what the earlier ones left. */
  method CommitRounds(pulled: Graph, anchors: map<int, Slot>) returns (log: seq<Slot>)
    requires Keyed(pulled)
    ensures log == Log(pulled, Roots(anchors))
  {
    hide Ascending;
    var rounds := SortedRounds(anchors.Keys);
    ghost var roots := Roots(anchors);
    var left := pulled;
    log := [];
    for i := 0 to |rounds|
      invariant left == pulled - Cones(pulled, roots[..i])
      invariant log == Log(pulled, roots[..i])
    {
      assert rounds[i] in Elems(rounds);
      ShrinkStep(pulled, roots, i);
      LogSnoc(pulled, roots, i);
      var executed;
      left, executed := CommitAnchor(anchors[rounds[i]], left);
      log := log + executed;
    }
    assert roots[..|rounds|] == roots;
  }

  method PullAll(u: Graph, m: Marks, req: SubmitReq) returns (pulled: Graph, anchors: map<int, Slot>)
    requires Keyed(u) && Complete(u, m, req.slot)
    ensures Keyed(pulled) && pulled == Pulled(u, m, req.slot) && anchors == AnchorsOf(req, pulled)
  {
    pulled, anchors := map[], map[req.round := req.slot];
    var q := [req.slot];
    PullStart(u, m, req);
    while |q| > 0
      invariant PullInv(u, m, req, q, pulled, anchors)
      invariant forall s :: s in q ==> s in u || Committed(m, s)
      decreases u.Keys - pulled.Keys, |q|
    {
      var head := q[0];
      if head in pulled || Committed(m, head) {
        PullSkip(u, m, req, q, pulled, anchors);
        q := q[1..];
      } else {
        var cur := u[head];
        PullTake(u, m, req, q, pulled, anchors);
        QueuedRefs(Live(u, m), req.slot, head);
        pulled := pulled[head := cur];
        anchors := RaiseAnchor(req, anchors, cur.header);
        q := q[1..] + RefSlots(cur);
      }
    }
    PullDone(u, m, req, pulled, anchors);
  }

  method Watermarks(pulled: Graph) returns (wm: Marks)
    ensures wm == Tops(pulled)
  {
    wm := map[];
    var todo := pulled.Keys;
    while todo != {}
      invariant todo <= pulled.Keys
      invariant TopsOf(pulled - todo, wm)
      decreases todo
    {
      var b :| b in todo;
      wm := RaiseMark(wm, b);
      todo := todo - {b};
    }
    assert pulled - todo == pulled;
    TopsUnique(pulled, wm, Tops(pulled));
  }

  lemma LeastRound(ss: set<int>)
    requires ss != {}
    ensures exists r :: r in ss && forall x :: x in ss ==> r <= x
  {
    var r := Pick(ss);
    assert Slot(0, r) in SlotsOf(ss);
    var least := LeastExists(0, SlotsOf(ss));
    forall x | x in ss ensures least.height <= x {
      assert Slot(0, x) in SlotsOf(ss);
    }
    assert least.height in ss;
  }

  method SortedRounds(rounds: set<int>) returns (xs: seq<int>)
    ensures xs == Ascending(rounds)
  {
    xs := [];
    var todo := rounds;
    while todo != {}
      invariant todo <= rounds && Elems(xs) == rounds - todo
      invariant Increasing(xs)
      invariant forall x, y :: x in xs && y in todo ==> x < y
      decreases todo
    {
      LeastRound(todo);
      var r :| r in todo && forall x :: x in todo ==> r <= x;
      assert forall i :: 0 <= i < |xs| ==> xs[i] in xs;
      assert forall x :: x in xs + [r] <==> x in Elems(xs) || x == r;
      xs := xs + [r];
      todo := todo - {r};
    }
    AscendingUnique(rounds, xs);
  }

  // ---- what the hypotheses on the history give ----

  /** No block reaches a higher block of its own author. */
  ghost predicate Descends(u: Graph) {
    forall s, t :: Reaches(u, s, t) && s.author == t.author ==> t.height <= s.height
  }

  lemma ReachesInLarger(g: Graph, u: Graph, s: Slot, t: Slot)
    requires forall x :: x in g ==> x in u && g[x] == u[x]
    requires Reaches(g, s, t)
    ensures Reaches(u, s, t)
  {
    var p :| IsPath(g, p) && p[0] == s && p[|p| - 1] == t;
    assert IsPath(u, p);
  }

  lemma DescendsNotRaised(u: Graph, m: Marks, req: SubmitReq)
    requires Keyed(u) && Descends(u)
    requires req.round in req.uncommitted ==> req.uncommitted[req.round] == req.slot.author
    ensures NotRaised(req, Pulled(u, m, req.slot))
  {
    var p := Pulled(u, m, req.slot);
    forall s | CandidateAt(req, p, s, req.round) ensures s.height <= req.slot.height {
      assert Reaches(Live(u, m), req.slot, s);
      ReachesInLarger(Live(u, m), u, req.slot, s);
    }
  }

  lemma LosesWhenRaised(u: Graph, m: Marks, req: SubmitReq, high: Slot)
    requires Keyed(u) && req.slot in Live(u, m) && u[req.slot].header.round == req.round
    requires Acyclic(Pulled(u, m, req.slot))
    requires CandidateAt(req, Pulled(u, m, req.slot), high, req.round) && req.slot.height < high.height
    ensures req.slot !in CommitLog(u, m, req)
    ensures Committed(CommitMarks(u, m, req), req.slot)
  {
    var p := Pulled(u, m, req.slot);
    PulledFromRoot(u, m, req.slot);
    assert Tops(p)[req.slot.author] >= req.slot.height;
    NotExecutedWhenRaised(u, m, req);
  }
}
