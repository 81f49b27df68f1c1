/** The order in which one anchor's batch is executed. */
module CommitOrder {
  import opened Types
  import opened CausalGraph

  /** The comparator of the batch sort: by author then height, the anchor's author last. */
  predicate Before(leader: NodeID, s: Slot, t: Slot) {
    if s.author == t.author then s.height < t.height
    else if s.author == leader then false
    else if t.author == leader then true
    else s.author < t.author
  }

  ghost predicate Sorted(leader: NodeID, xs: seq<Slot>) {
    forall i, j :: 0 <= i < j < |xs| ==> Before(leader, xs[i], xs[j])
  }

  /** The batch order in words: the leader's blocks come last, other authors in ascending order,
      and each author's blocks by height. */
  ghost predicate InBatchOrder(leader: NodeID, xs: seq<Slot>) {
    forall i, j :: 0 <= i < j < |xs| ==>
      && (xs[i].author == leader ==> xs[j].author == leader)
      && (xs[i].author != leader && xs[j].author != leader ==> xs[i].author <= xs[j].author)
      && (xs[i].author == xs[j].author ==> xs[i].height < xs[j].height)
  }

  /** Sorting by the comparator is that order, and that order is sorted by the comparator. */
  lemma OrderExact(leader: NodeID, xs: seq<Slot>)
    ensures Sorted(leader, xs) <==> InBatchOrder(leader, xs)
  {}

  /** `xs` lists `ss` in batch order. */
  ghost predicate Lists(leader: NodeID, ss: set<Slot>, xs: seq<Slot>) {
    Sorted(leader, xs) && Elems(xs) == ss
  }

  lemma {:induction false} LeastExists(leader: NodeID, ss: set<Slot>) returns (m: Slot)
    requires ss != {}
    ensures m in ss && forall t :: t in ss && t != m ==> Before(leader, m, t)
    decreases |ss|
  {
    var a :| a in ss;
    m := a;
    if ss != {a} {
      var k := LeastExists(leader, ss - {a});
      m := if Before(leader, k, a) then k else a;
      assert forall t :: t in ss ==> t == a || t in ss - {a};
    }
  }

  /** The one listing of a set in batch order. */
  ghost function Arrange(leader: NodeID, ss: set<Slot>): (xs: seq<Slot>)
    ensures Lists(leader, ss, xs)
    decreases |ss|
  {
    if ss == {} then [] else
      assert exists m :: m in ss && forall t :: t in ss && t != m ==> Before(leader, m, t) by {
        var k := LeastExists(leader, ss);
      }
      var m :| m in ss && forall t :: t in ss && t != m ==> Before(leader, m, t);
      var tail := Arrange(leader, ss - {m});
      ConsLists(leader, ss, m, tail);
      [m] + tail
  }

  lemma ConsLists(leader: NodeID, ss: set<Slot>, m: Slot, tail: seq<Slot>)
    requires m in ss && (forall t :: t in ss && t != m ==> Before(leader, m, t)) && Lists(leader, ss - {m}, tail)
    ensures Lists(leader, ss, [m] + tail)
  {
    assert forall i :: 0 <= i < |tail| ==> tail[i] in Elems(tail);
    ElemsConcat([m], tail);
    assert Elems([m]) == {m};
  }

  /** The comparator leaves no freedom: two listings of one set are the same sequence,
      so neither the sort algorithm nor the traversal order can show in the result. */
  lemma {:induction false} ListingUnique(leader: NodeID, ss: set<Slot>, xs: seq<Slot>, ys: seq<Slot>)
    requires Lists(leader, ss, xs) && Lists(leader, ss, ys)
    ensures xs == ys
    decreases |xs|
  {
    assert xs != [] ==> xs[0] in Elems(xs);
    assert ys != [] ==> ys[0] in Elems(ys);
    if xs == [] {
    } else {
      HeadLeast(leader, xs, ys[0]);
      HeadLeast(leader, ys, xs[0]);
      assert Elems(xs[1..]) == ss - {xs[0]} by { TailElems(leader, xs); }
      assert Elems(ys[1..]) == ss - {ys[0]} by { TailElems(leader, ys); }
      ListingUnique(leader, ss - {xs[0]}, xs[1..], ys[1..]);
    }
  }

  lemma HeadLeast(leader: NodeID, xs: seq<Slot>, s: Slot)
    requires Sorted(leader, xs) && s in Elems(xs)
    ensures s == xs[0] || Before(leader, xs[0], s)
  {}

  lemma TailElems(leader: NodeID, xs: seq<Slot>)
    requires Sorted(leader, xs) && xs != []
    ensures Elems(xs[1..]) == Elems(xs) - {xs[0]}
  {
    forall s | s in Elems(xs) - {xs[0]} ensures s in xs[1..] {
      var i :| 0 <= i < |xs| && xs[i] == s;
      assert xs[1..][i - 1] == s;
    }
    forall s | s in xs[1..] ensures s in Elems(xs) - {xs[0]} {
      var i :| 0 <= i < |xs[1..]| && xs[1..][i] == s;
      assert xs[i + 1] == s && Before(leader, xs[0], xs[i + 1]);
    }
  }

  lemma SortedNoDup(leader: NodeID, xs: seq<Slot>)
    requires Sorted(leader, xs)
    ensures NoDup(xs)
  {}

  /** Sorts the slots of one batch; stands in for the library sort the commitor calls. */
  method SortSlots(leader: NodeID, xs: seq<Slot>) returns (ys: seq<Slot>)
    requires NoDup(xs)
    ensures ys == Arrange(leader, Elems(xs))
    ensures InBatchOrder(leader, ys) && Elems(ys) == Elems(xs)
  {
    ys := [];
    for i := 0 to |xs|
      invariant Sorted(leader, ys)
      invariant Elems(ys) == Elems(xs[..i])
    {
      assert xs[..i + 1] == xs[..i] + [xs[i]];
      assert xs[i] !in xs[..i];
      assert xs[i] !in Elems(ys);
      ys := Insert(leader, ys, xs[i]);
    }
    assert xs[..|xs|] == xs;
    ListingUnique(leader, Elems(xs), ys, Arrange(leader, Elems(xs)));
    OrderExact(leader, ys);
  }

  method Insert(leader: NodeID, xs: seq<Slot>, s: Slot) returns (ys: seq<Slot>)
    requires Sorted(leader, xs) && s !in xs
    ensures Sorted(leader, ys) && Elems(ys) == Elems(xs) + {s}
  {
    var k := |xs|;
    while k > 0 && !Before(leader, xs[k - 1], s)
      invariant 0 <= k <= |xs|
      invariant forall j :: k <= j < |xs| ==> Before(leader, s, xs[j])
    {
      k := k - 1;
    }
    ys := xs[..k] + [s] + xs[k..];
    assert forall t :: t in ys <==> t in xs || t == s;
  }

  /** The leader's own blocks `lo+1 .. hi`, lowest first. */
  ghost function OwnRun(leader: NodeID, lo: int, hi: int): (run: seq<Slot>)
    requires lo <= hi
    ensures |run| == hi - lo
    ensures forall i :: 0 <= i < |run| ==> run[i] == Slot(leader, lo + 1 + i)
    decreases hi - lo
  {
    if lo == hi then [] else OwnRun(leader, lo, hi - 1) + [Slot(leader, hi)]
  }

  ghost predicate RefsOnly(g: Graph, s: Slot, t: Slot) {
    s in g && forall x :: Refs(g[s], x) <==> x == t
  }

  /** Blocks `lo+1 .. hi` of `leader` are present and each references only its predecessor. */
  ghost predicate PlainRun(g: Graph, leader: NodeID, lo: int, hi: int) {
    forall h :: lo < h <= hi ==> RefsOnly(g, Slot(leader, h), Slot(leader, h - 1))
  }

  lemma PlainBlockCone(g: Graph, s: Slot, t: Slot)
    requires RefsOnly(g, s, t) && t in g
    ensures Cone(g, s) == Cone(g, t) + {s}
  {
    ConeSelf(g, s);
    ConeSelf(g, t);
    ConeStep(g, s, s, t);
    ConeMonotone(g, s, t);
    ConeClosed(g, t);
    assert Closed(g, Cone(g, t) + {s});
    ConeLeast(g, s, Cone(g, t) + {s});
  }

  lemma {:induction false} PlainRunCone(g: Graph, leader: NodeID, lo: int, hi: int)
    requires lo <= hi && Slot(leader, lo) in g && PlainRun(g, leader, lo, hi)
    ensures Slot(leader, hi) in g
    ensures Cone(g, Slot(leader, hi)) == Cone(g, Slot(leader, lo)) + Elems(OwnRun(leader, lo, hi))
    decreases hi - lo
  {
    if lo < hi {
      hide Cone, Refs;
      PlainRunCone(g, leader, lo, hi - 1);
      var top := Slot(leader, hi);
      PlainBlockCone(g, top, Slot(leader, hi - 1));
      ElemsConcat(OwnRun(leader, lo, hi - 1), [top]);
      assert Elems([top]) == {top};
    }
  }

  /** No block of the leader in the history of its block at height `lo` is above that block. */
  ghost predicate OwnBelow(g: Graph, leader: NodeID, lo: int) {
    forall t :: t in Cone(g, Slot(leader, lo)) && t.author == leader ==> t.height <= lo
  }

  /** The tail rule. Moving an anchor up along plain blocks of its own author only appends those
      blocks, so what was executed for the lower anchor stays a prefix, if and only if the lower
      anchor's history holds no higher block of that author. */
  lemma PrefixExtension(g: Graph, leader: NodeID, lo: int, hi: int)
    requires lo < hi && Slot(leader, lo) in g && PlainRun(g, leader, lo, hi)
    ensures Arrange(leader, Cone(g, Slot(leader, hi)))
         == Arrange(leader, Cone(g, Slot(leader, lo))) + OwnRun(leader, lo, hi)
       <==> OwnBelow(g, leader, lo)
  {
    var low, run := Arrange(leader, Cone(g, Slot(leader, lo))), OwnRun(leader, lo, hi);
    PlainRunCone(g, leader, lo, hi);
    if OwnBelow(g, leader, lo) {
      assert forall i :: 0 <= i < |low| ==> low[i] in Elems(low);
      assert Sorted(leader, low + run);
      ElemsConcat(low, run);
      ListingUnique(leader, Cone(g, Slot(leader, hi)), low + run, Arrange(leader, Cone(g, Slot(leader, hi))));
    }
    if Sorted(leader, low + run) {
      SortedMeansBelow(g, leader, lo, low, run);
    }
  }

  lemma SortedMeansBelow(g: Graph, leader: NodeID, lo: int, low: seq<Slot>, run: seq<Slot>)
    requires Elems(low) == Cone(g, Slot(leader, lo)) && Sorted(leader, low + run)
    requires run != [] && run[0] == Slot(leader, lo + 1)
    ensures OwnBelow(g, leader, lo)
  {
    forall t | t in Cone(g, Slot(leader, lo)) && t.author == leader ensures t.height <= lo {
      assert t in Elems(low);
      var i :| 0 <= i < |low| && low[i] == t;
      assert (low + run)[i] == t && (low + run)[|low|] == run[0];
    }
  }
}
