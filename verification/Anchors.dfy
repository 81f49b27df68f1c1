/** Which blocks a submission pulls, which of them become anchors, and the new watermarks. */
module Anchors {
  import opened Types
  import opened CausalGraph

  type Marks = map<NodeID, int>

  /** A missing watermark reads as the zero value of the source's map. */
  function MarkOf(m: Marks, a: NodeID): int {
    if a in m then m[a] else 0
  }

  predicate Committed(m: Marks, s: Slot) {
    s.height <= MarkOf(m, s.author)
  }

  /** The blocks of `u` above the watermarks. */
  function Live(u: Graph, m: Marks): Graph {
    map s | s in u && !Committed(m, s) :: u[s]
  }

  /** The uncommitted causal history of `s`. */
  ghost function Pulled(u: Graph, m: Marks, s: Slot): Graph {
    Restrict(Live(u, m), Cone(Live(u, m), s))
  }

  /** Every pull issued on behalf of `s` gets an answer: nothing uncommitted is absent. */
  ghost predicate Complete(u: Graph, m: Marks, s: Slot) {
    && (s in u || Committed(m, s))
    && forall x, t {:trigger Refs(u[x], t)} ::
         x in Cone(Live(u, m), s) && Refs(u[x], t) ==> t in u || Committed(m, t)
  }

  // ---- anchors ----

  predicate Candidate(req: SubmitReq, h: Header) {
    h.round in req.uncommitted && h.slot.author == req.uncommitted[h.round] && h.slot.height - h.firstRefH >= 1
  }

  predicate CandidateAt(req: SubmitReq, g: Graph, s: Slot, r: int) {
    s in g && g[s].header.round == r && Candidate(req, g[s].header)
  }

  /** `anchors` holds, for the submitted round and every round with a candidate, the highest
      choice: the submitted slot unless a candidate of its round is strictly higher. */
  ghost predicate Anchored(req: SubmitReq, g: Graph, anchors: map<int, Slot>) {
    && req.round in anchors
    && (forall s, r :: CandidateAt(req, g, s, r) ==> r in anchors && s.height <= anchors[r].height)
    && (forall r :: r in anchors && r != req.round ==> CandidateAt(req, g, anchors[r], r))
    && (anchors[req.round] == req.slot
        || (CandidateAt(req, g, anchors[req.round], req.round) && req.slot.height < anchors[req.round].height))
  }

  /** One update of the anchor table for a freshly pulled block. */
  function RaiseAnchor(req: SubmitReq, anchors: map<int, Slot>, h: Header): map<int, Slot> {
    if Candidate(req, h) && (h.round !in anchors || anchors[h.round].height < h.slot.height)
    then anchors[h.round := h.slot]
    else anchors
  }

  lemma RaiseAnchorKeeps(req: SubmitReq, g: Graph, anchors: map<int, Slot>, s: Slot, b: Block)
    requires Keyed(g) && Anchored(req, g, anchors) && s !in g && b.header.slot == s
    ensures Anchored(req, g[s := b], RaiseAnchor(req, anchors, b.header))
  {
    var g', a' := g[s := b], RaiseAnchor(req, anchors, b.header);
    forall t, r | CandidateAt(req, g', t, r) ensures r in a' && t.height <= a'[r].height {
      assert t != s ==> CandidateAt(req, g, t, r);
    }
    forall r | r in a' && r != req.round ensures CandidateAt(req, g', a'[r], r) {
      if r in anchors && a'[r] == anchors[r] {
        assert CandidateAt(req, g, anchors[r], r);
      }
    }
    if anchors[req.round] != req.slot {
      assert CandidateAt(req, g, anchors[req.round], req.round);
    }
  }

  lemma AnchorsBelow(req: SubmitReq, g: Graph, a: map<int, Slot>, b: map<int, Slot>, r: int)
    requires Keyed(g) && Anchored(req, g, a) && Anchored(req, g, b) && r in a
    ensures r in b && a[r].height <= b[r].height
  {
    assert CandidateAt(req, g, a[r], r) || a[r] == req.slot;
  }

  /** The table does not depend on the order in which blocks were pulled. */
  lemma AnchorsUnique(req: SubmitReq, g: Graph, a: map<int, Slot>, b: map<int, Slot>)
    requires Keyed(g) && Anchored(req, g, a) && Anchored(req, g, b)
    ensures a == b
  {
    forall r | r in a ensures r in b && a[r] == b[r] {
      AnchorsBelow(req, g, a, b, r);
      AnchorsBelow(req, g, b, a, r);
      assert CandidateAt(req, g, a[r], r) || a[r] == req.slot;
      assert CandidateAt(req, g, b[r], r) || b[r] == req.slot;
    }
    forall r | r in b ensures r in a {
      AnchorsBelow(req, g, b, a, r);
    }
  }

  lemma {:induction false} AnchorsExist(req: SubmitReq, g: Graph) returns (anchors: map<int, Slot>)
    requires Keyed(g)
    ensures Anchored(req, g, anchors)
    decreases |g|
  {
    if g == map[] {
      anchors := map[req.round := req.slot];
    } else {
      var s :| s in g;
      var g' := g - {s};
      var rest := AnchorsExist(req, g');
      RaiseAnchorKeeps(req, g', rest, s, g[s]);
      assert g'[s := g[s]] == g;
      anchors := RaiseAnchor(req, rest, g[s].header);
    }
  }

  ghost function AnchorsOf(req: SubmitReq, g: Graph): (anchors: map<int, Slot>)
    requires Keyed(g)
    ensures Anchored(req, g, anchors)
  {
    assert exists a :: Anchored(req, g, a) by {
      var a := AnchorsExist(req, g);
    }
    var a :| Anchored(req, g, a);
    a
  }

  /** Which rounds get an anchor, in numbers. Every pulled block of a known leader's uncommitted
      round that is above the round's first block puts an anchor at or above it; an anchor of a
      round other than the submitted one is such a block; the submitted round's anchor is the
      submitted slot or a higher such block. */
  lemma AnchorsExact(req: SubmitReq, g: Graph)
    requires Keyed(g)
    ensures var anchors := AnchorsOf(req, g);
      && req.round in anchors
      && (forall s :: s in g && g[s].header.round in req.uncommitted && s.author == req.uncommitted[g[s].header.round]
                      && s.height > g[s].header.firstRefH ==>
            g[s].header.round in anchors && s.height <= anchors[g[s].header.round].height)
      && (forall r :: r in anchors && (r != req.round || anchors[r] != req.slot) ==>
            && anchors[r] in g && g[anchors[r]].header.round == r
            && r in req.uncommitted && anchors[r].author == req.uncommitted[r]
            && anchors[r].height > g[anchors[r]].header.firstRefH)
      && anchors[req.round].height >= req.slot.height
  {
    var anchors := AnchorsOf(req, g);
    forall s | s in g && g[s].header.round in req.uncommitted && s.author == req.uncommitted[g[s].header.round]
               && s.height > g[s].header.firstRefH
      ensures g[s].header.round in anchors && s.height <= anchors[g[s].header.round].height
    {
      assert CandidateAt(req, g, s, g[s].header.round);
    }
    forall r | r in anchors && (r != req.round || anchors[r] != req.slot)
      ensures anchors[r] in g && g[anchors[r]].header.round == r
      ensures r in req.uncommitted && anchors[r].author == req.uncommitted[r]
      ensures anchors[r].height > g[anchors[r]].header.firstRefH
    {
      assert CandidateAt(req, g, anchors[r], r);
    }
  }

  // ---- watermarks ----

  /** `wm` maps each author of `g` to the author's highest slot in `g`. */
  ghost predicate TopsOf(g: Graph, wm: Marks) {
    && (forall s :: s in g ==> s.author in wm && s.height <= wm[s.author])
    && (forall a :: a in wm ==> Slot(a, wm[a]) in g)
  }

  lemma TopsUnique(g: Graph, v: Marks, w: Marks)
    requires TopsOf(g, v) && TopsOf(g, w)
    ensures v == w
  {
    assert forall a :: a in v ==> Slot(a, v[a]) in g;
    assert forall a :: a in w ==> Slot(a, w[a]) in g;
  }

  function RaiseMark(wm: Marks, s: Slot): Marks {
    if s.author !in wm || s.height > wm[s.author] then wm[s.author := s.height] else wm
  }

  lemma {:induction false} TopsExist(g: Graph) returns (wm: Marks)
    ensures TopsOf(g, wm)
    decreases |g|
  {
    wm := map[];
    if g == map[] {
    } else {
      var s :| s in g;
      var g' := g - {s};
      wm := TopsExist(g');
      wm := RaiseMark(wm, s);
      assert forall t :: t in g ==> t == s || t in g';
    }
  }

  ghost function Tops(g: Graph): (wm: Marks)
    ensures TopsOf(g, wm)
  {
    assert exists w :: TopsOf(g, w) by {
      var w := TopsExist(g);
    }
    var w :| TopsOf(g, w);
    w
  }
}
