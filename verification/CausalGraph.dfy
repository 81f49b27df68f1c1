/** Causal history as reachability along references, and the two facts every
    commit proof rests on: a cone is closed under references, and it is the least
    closed set that holds its root. */
module CausalGraph {
  import opened Types

  predicate Refs(b: Block, t: Slot) {
    exists i :: 0 <= i < |b.refs| && b.refs[i].slot == t
  }

  ghost predicate IsPath(g: Graph, p: seq<Slot>) {
    && |p| > 0
    && (forall i :: 0 <= i < |p| ==> p[i] in g)
    && (forall i :: 0 <= i < |p| - 1 ==> Refs(g[p[i]], p[i + 1]))
  }

  ghost predicate Reaches(g: Graph, s: Slot, t: Slot) {
    exists p :: IsPath(g, p) && p[0] == s && p[|p| - 1] == t
  }

  /** The causal history of `s` inside `g`, `s` included. */
  ghost function Cone(g: Graph, s: Slot): set<Slot> {
    set t | t in g && Reaches(g, s, t)
  }

  ghost predicate Closed(g: Graph, ss: set<Slot>) {
    forall s, t {:trigger Refs(g[s], t)} :: s in ss && s in g && t in g && Refs(g[s], t) ==> t in ss
  }

  lemma ConeSelf(g: Graph, s: Slot)
    ensures s in g <==> s in Cone(g, s)
    ensures s !in g ==> Cone(g, s) == {}
  {
    if s in g {
      assert IsPath(g, [s]);
    }
  }

  lemma ConeStep(g: Graph, r: Slot, s: Slot, t: Slot)
    requires s in Cone(g, r) && t in g && Refs(g[s], t)
    ensures t in Cone(g, r)
  {
    var p :| IsPath(g, p) && p[0] == r && p[|p| - 1] == s;
    assert IsPath(g, p + [t]);
  }

  lemma ConeClosed(g: Graph, r: Slot)
    ensures Closed(g, Cone(g, r))
  {
    forall s, t | s in Cone(g, r) && t in g && Refs(g[s], t) ensures t in Cone(g, r) {
      ConeStep(g, r, s, t);
    }
  }

  lemma {:induction false} PathStays(g: Graph, p: seq<Slot>, ss: set<Slot>, k: nat)
    requires IsPath(g, p) && Closed(g, ss) && p[0] in ss && k < |p|
    ensures p[k] in ss
  {
    if k == 0 {
    } else {
      PathStays(g, p, ss, k - 1);
      assert Refs(g[p[k - 1]], p[k - 1 + 1]);
    }
  }

  lemma ConeLeast(g: Graph, r: Slot, ss: set<Slot>)
    requires Closed(g, ss) && r in ss
    ensures Cone(g, r) <= ss
  {
    forall t | t in Cone(g, r) ensures t in ss {
      var p :| IsPath(g, p) && p[0] == r && p[|p| - 1] == t;
      PathStays(g, p, ss, |p| - 1);
    }
  }

  /** A root reached by another root has the smaller history. */
  lemma ConeMonotone(g: Graph, r: Slot, s: Slot)
    requires s in Cone(g, r)
    ensures Cone(g, s) <= Cone(g, r)
  {
    ConeClosed(g, r);
    ConeLeast(g, s, Cone(g, r));
  }

  /** Deleting a reference-closed set deletes exactly that set from every history. */
  lemma ConeAfterRemoval(g: Graph, gone: set<Slot>, r: Slot)
    requires Closed(g, gone)
    ensures Cone(g - gone, r) == Cone(g, r) - gone
  {
    var g' := g - gone;
    ConeSelf(g, r);
    ConeSelf(g', r);
    ConeClosed(g, r);
    ConeClosed(g', r);
    if r in g' {
      assert Closed(g', Cone(g, r) - gone);
      ConeLeast(g', r, Cone(g, r) - gone);
      assert Closed(g, Cone(g', r) + gone) by {
        forall s, t | s in Cone(g', r) + gone && s in g && t in g && Refs(g[s], t)
          ensures t in Cone(g', r) + gone
        {
          if s in Cone(g', r) && t !in gone {
            assert Refs(g'[s], t);
          }
        }
      }
      ConeLeast(g, r, Cone(g', r) + gone);
    } else if r in g {
      ConeLeast(g, r, gone);
    }
  }

  /** Cutting `g` down to one history keeps every smaller history inside it. */
  lemma ConeInsideCone(g: Graph, r: Slot, s: Slot)
    requires s in Cone(g, r)
    ensures Cone(Restrict(g, Cone(g, r)), s) == Cone(g, s)
  {
    var c := Cone(g, r);
    var h := Restrict(g, c);
    ConeMonotone(g, r, s);
    ConeSelf(g, s);
    ConeSelf(h, s);
    ConeClosed(g, s);
    ConeClosed(h, s);
    ConeClosed(g, r);
    assert Closed(h, Cone(g, s));
    ConeLeast(h, s, Cone(g, s));
    assert Closed(g, Cone(h, s)) by {
      forall x, t | x in Cone(h, s) && x in g && t in g && Refs(g[x], t) ensures t in Cone(h, s) {
        assert x in c && t in h && Refs(h[x], t);
      }
    }
    ConeLeast(g, s, Cone(h, s));
  }

  function Restrict(g: Graph, ss: set<Slot>): Graph {
    map s | s in g && s in ss :: g[s]
  }

  /** The union of several histories. */
  ghost function Cones(g: Graph, roots: seq<Slot>): set<Slot> {
    set t | t in g && exists i :: 0 <= i < |roots| && t in Cone(g, roots[i])
  }

  lemma ConeInCones(g: Graph, roots: seq<Slot>, k: nat)
    requires k < |roots|
    ensures Cone(g, roots[k]) <= Cones(g, roots) <= g.Keys
  {}

  lemma ConesClosed(g: Graph, roots: seq<Slot>)
    ensures Closed(g, Cones(g, roots))
  {
    forall s, t | s in Cones(g, roots) && t in g && Refs(g[s], t) ensures t in Cones(g, roots) {
      var i :| 0 <= i < |roots| && s in Cone(g, roots[i]);
      ConeStep(g, roots[i], s, t);
    }
  }

  lemma ConesSnoc(g: Graph, roots: seq<Slot>, r: Slot)
    ensures Cones(g, roots + [r]) == Cones(g, roots) + Cone(g, r)
  {
    var all := roots + [r];
    forall t | t in Cones(g, roots) + Cone(g, r) ensures t in Cones(g, all) {
      if t in Cone(g, r) {
        assert all[|roots|] == r;
      } else {
        var i :| 0 <= i < |roots| && t in Cone(g, roots[i]);
        assert all[i] == roots[i];
      }
    }
  }

  /** No two different slots lie in each other's history. */
  ghost predicate Acyclic(g: Graph) {
    forall s, t {:trigger Reaches(g, s, t), Reaches(g, t, s)} ::
      Reaches(g, s, t) && Reaches(g, t, s) ==> s == t
  }
}
