/** The first loop of a commit: pulling the uncommitted history block by block. The
    invariant is shared by the sequential method and by the concurrent pipeline. */
module Pull {
  import opened Types
  import opened CausalGraph
  import opened Anchors

  function RefSlots(b: Block): seq<Slot> {
    seq(|b.refs|, i requires 0 <= i < |b.refs| => b.refs[i].slot)
  }

  /** `t` needs no further attention: pulled, queued, or below the watermark. */
  ghost predicate Handled(m: Marks, q: seq<Slot>, pulled: Graph, t: Slot) {
    t in pulled || t in q || Committed(m, t)
  }

  ghost predicate PullInv(u: Graph, m: Marks, req: SubmitReq, q: seq<Slot>, pulled: Graph, anchors: map<int, Slot>) {
    && (forall s :: s in pulled ==> s in Cone(Live(u, m), req.slot) && pulled[s] == u[s])
    && (forall s :: s in q && s in Live(u, m) ==> s in Cone(Live(u, m), req.slot))
    && Handled(m, q, pulled, req.slot)
    && (forall s, t {:trigger Refs(pulled[s], t)} :: s in pulled && Refs(pulled[s], t) ==> Handled(m, q, pulled, t))
    && Anchored(req, pulled, anchors)
  }

  lemma PullStart(u: Graph, m: Marks, req: SubmitReq)
    ensures PullInv(u, m, req, [req.slot], map[], map[req.round := req.slot])
  {
    ConeSelf(Live(u, m), req.slot);
  }

  /** Dropping a queue head that is already pulled or already committed. */
  lemma PullSkip(u: Graph, m: Marks, req: SubmitReq, q: seq<Slot>, pulled: Graph, anchors: map<int, Slot>)
    requires PullInv(u, m, req, q, pulled, anchors)
    requires q != [] && (q[0] in pulled || Committed(m, q[0]))
    ensures PullInv(u, m, req, q[1..], pulled, anchors)
  {
    assert forall t :: t in q ==> t == q[0] || t in q[1..];
    forall s, t | s in pulled && Refs(pulled[s], t) ensures Handled(m, q[1..], pulled, t) {
      assert Handled(m, q, pulled, t);
    }
  }

  /** Pulling the queue head: record it, raise its round's anchor, queue its references. */
  lemma PullTake(u: Graph, m: Marks, req: SubmitReq, q: seq<Slot>, pulled: Graph, anchors: map<int, Slot>)
    requires Keyed(u) && PullInv(u, m, req, q, pulled, anchors)
    requires q != [] && q[0] !in pulled && q[0] in Live(u, m)
    ensures PullInv(u, m, req, q[1..] + RefSlots(u[q[0]]), pulled[q[0] := u[q[0]]],
                    RaiseAnchor(req, anchors, u[q[0]].header))
  {
    var head, b := q[0], u[q[0]];
    var g, q', p' := Live(u, m), q[1..] + RefSlots(b), pulled[head := b];
    RaiseAnchorKeeps(req, pulled, anchors, head, b);
    forall t | t in q' && t in g ensures t in Cone(g, req.slot) {
      if t in RefSlots(b) {
        InRefSlots(b, t);
        assert Refs(g[head], t);
        ConeStep(g, req.slot, head, t);
      }
    }
    forall s, t | s in p' && Refs(p'[s], t) ensures Handled(m, q', p', t) {
      if s == head {
        InRefSlots(b, t);
      } else {
        assert Refs(pulled[s], t);
        StillHandled(m, q, pulled, b, t);
      }
    }
    StillHandled(m, q, pulled, b, req.slot);
  }

  lemma InRefSlots(b: Block, t: Slot)
    ensures t in RefSlots(b) <==> Refs(b, t)
  {
    if Refs(b, t) {
      var i :| 0 <= i < |b.refs| && b.refs[i].slot == t;
      assert RefSlots(b)[i] == t;
    }
  }

  lemma StillHandled(m: Marks, q: seq<Slot>, pulled: Graph, b: Block, t: Slot)
    requires q != [] && Handled(m, q, pulled, t)
    ensures Handled(m, q[1..] + RefSlots(b), pulled[q[0] := b], t)
  {
    if t in q && t != q[0] {
      assert t in q[1..];
    }
  }

  /** When the queue is empty the pulled map is the whole uncommitted history. */
  lemma PullDone(u: Graph, m: Marks, req: SubmitReq, pulled: Graph, anchors: map<int, Slot>)
    requires Keyed(u) && PullInv(u, m, req, [], pulled, anchors)
    ensures Keyed(pulled) && pulled == Pulled(u, m, req.slot)
    ensures anchors == AnchorsOf(req, pulled)
    ensures Complete(u, m, req.slot)
  {
    var g := Live(u, m);
    forall s, t | s in pulled && Refs(g[s], t) ensures t in pulled || Committed(m, t) {
      assert Refs(pulled[s], t) && Handled(m, [], pulled, t);
    }
    assert Closed(g, pulled.Keys);
    ConeSelf(g, req.slot);
    if req.slot in g {
      ConeLeast(g, req.slot, pulled.Keys);
    }
    AnchorsUnique(req, pulled, anchors, AnchorsOf(req, pulled));
  }
}
