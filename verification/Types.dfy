/** Values shared by the whole model: slots, headers, blocks and the requests that
    travel between core, dag and commitor. Payload batches and signatures are not
    part of a block here: no modelled decision reads them. */
module Types {

  datatype Option<+T> = None | Some(value: T)

  type NodeID = int

  datatype Slot = Slot(author: NodeID, height: int)

  /** `firstRefH` is the height of the author's first block in round `round`. */
  datatype Header = Header(slot: Slot, round: int, firstRefH: int)

  datatype Block = Block(header: Header, refs: seq<Header>)

  type Graph = map<Slot, Block>

  datatype CommitReq = CommitReq(leader: NodeID, round: int)

  /** What the dag hands to the commitor; `uncommitted` is a snapshot of the leader map. */
  datatype SubmitReq = SubmitReq(slot: Slot, round: int, uncommitted: map<int, NodeID>)

  /** Every block is stored under the slot its header names. */
  ghost predicate Keyed(g: Graph) {
    forall s :: s in g ==> g[s].header.slot == s
  }

  ghost predicate NoDup<T>(xs: seq<T>) {
    forall i, j :: 0 <= i < j < |xs| ==> xs[i] != xs[j]
  }

  ghost function Elems<T>(xs: seq<T>): set<T> {
    set x | x in xs
  }

  /** 0, 1, ..., n-1. */
  ghost function UpTo(n: nat): (xs: seq<int>)
    ensures |xs| == n && forall i :: 0 <= i < n ==> xs[i] == i
  {
    if n == 0 then [] else UpTo(n - 1) + [n - 1]
  }

  lemma ElemsConcat<T>(xs: seq<T>, ys: seq<T>)
    ensures Elems(xs + ys) == Elems(xs) + Elems(ys)
  {}

  lemma NoDupConcat<T>(xs: seq<T>, ys: seq<T>)
    requires NoDup(xs) && NoDup(ys) && Elems(xs) !! Elems(ys)
    ensures NoDup(xs + ys)
  {
    forall i, j | 0 <= i < |xs| && 0 <= j < |ys| ensures xs[i] != ys[j] {
      assert xs[i] in Elems(xs) && ys[j] in Elems(ys);
    }
  }

  lemma {:induction false} NoDupSize<T>(xs: seq<T>)
    requires NoDup(xs)
    ensures |Elems(xs)| == |xs|
  {
    if xs == [] {
    } else {
      var x, rest := xs[0], xs[1..];
      NoDupSize(rest);
      assert xs == [x] + rest;
      ElemsConcat([x], rest);
      assert Elems([x]) == {x} && x !in Elems(rest);
    }
  }

  lemma Pick<T>(ss: set<T>) returns (x: T)
    requires ss != {}
    ensures x in ss
  {
    x :| x in ss;
  }
}
