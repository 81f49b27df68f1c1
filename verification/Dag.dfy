/** The dag's handlers over the sliding windows. Each is proved to do to the windows what
    `Store` says happens to the plain map. */
module Dag {
  import opened Types
  import opened Anchors
  import opened Store
  import opened Window
  import opened Quorum
  import opened References

  class Dag {
    const n: nat
    const nodeID: NodeID
    var cache: seq<Line>
    var cacheMark: Marks
    var uncommitted: map<int, NodeID>
    var commitMark: int
    var pending: set<Slot>
    var pendingCommit: Option<CommitReq>

    ghost predicate Valid()
      reads this
    {
      && |cache| == n && 0 <= nodeID < n
      && Windows(cache, cacheMark)
      && (pendingCommit.Some? ==> 0 <= pendingCommit.value.leader < n)
    }

    ghost function Blocks(): Graph
      reads this
      requires Valid()
    {
      BlocksOf(cache, cacheMark)
    }

    ghost function State(): Store
      reads this
      requires Valid()
    {
      Store(Blocks(), cacheMark, uncommitted, commitMark, pendingCommit, pending)
    }

    constructor (n: nat, nodeID: NodeID)
      requires 0 <= nodeID < n
      ensures Valid() && this.n == n && this.nodeID == nodeID
      ensures State() == Store(map[], map a | a in Committee(n) :: -1, map[], -2, None, {})
    {
      this.n := n;
      this.nodeID := nodeID;
      cache := seq(n, _ => []);
      cacheMark := map a | a in Committee(n) :: -1;
      uncommitted := map[];
      commitMark := -2;
      pending := {};
      pendingCommit := None;
    }

    method Get(author: NodeID, height: int) returns (b: Option<Block>)
      requires Valid() && 0 <= author < n
      ensures b == if Slot(author, height) in Blocks() then Some(Blocks()[Slot(author, height)]) else None
    {
      var i := height - cacheMark[author] - 1;
      if i >= 0 && i < |cache[author]| {
        b := cache[author][i];
      } else {
        b := None;
      }
    }

    method Lacks(b: Slot) returns (lacking: bool)
      requires Valid() && 0 <= b.author < n
      ensures lacking == AnswerPull(State(), b).Parked?
    {
      var index := b.height - cacheMark[b.author] - 1;
      lacking := index >= |cache[b.author]| || (index >= 0 && cache[b.author][index] == None);
    }

    /** Reports the headers whose block is neither held nor committed, in order. */
    method Check(items: seq<Header>) returns (miss: seq<Header>)
      requires Valid() && forall h :: h in items ==> 0 <= h.slot.author < n
      ensures miss == Missing(State(), items)
    {
      miss := [];
      for i := 0 to |items|
        invariant miss == Missing(State(), items[..i])
      {
        assert items[..i + 1][..i] == items[..i];
        assert items[i] in items;
        var lacking := Lacks(items[i].slot);
        if lacking {
          miss := miss + [items[i]];
        }
      }
      assert items[..|items|] == items;
    }

    /** `notified` tells whether a parked pull of this slot is answered by the push. */
    method Push(block: Block) returns (notified: bool)
      requires Valid() && 0 <= block.header.slot.author < n
      modifies this
      ensures Valid() && State() == AfterPush(old(State()), block)
      ensures notified <==> block.header.slot in pending && !Committed(cacheMark, block.header.slot)
    {
      hide BlocksOf, Windows;
      WindowsShape(cache, cacheMark);
      var b := block.header.slot;
      var index := b.height - cacheMark[b.author] - 1;
      if index < 0 {
        return false;
      }
      Write(block, index);
      notified := b in pending;
    }

    method Write(block: Block, index: nat)
      requires Valid() && 0 <= block.header.slot.author < n
      requires index == block.header.slot.height - cacheMark[block.header.slot.author] - 1
      modifies this`cache
      ensures Valid() && Blocks() == old(Blocks())[block.header.slot := block]
    {
      hide BlocksOf, Windows;
      WindowsShape(cache, cacheMark);
      PushRefines(cache, cacheMark, block);
      var a := block.header.slot.author;
      cache := cache[a := Widen(cache[a], index + 1)[index := Some(block)]];
    }

    method Pull(slot: Slot) returns (reply: PullReply)
      requires Valid() && 0 <= slot.author < n
      modifies this
      ensures Valid() && State() == AfterPull(old(State()), slot)
      ensures reply == AnswerPull(old(State()), slot)
    {
      if slot.height <= cacheMark[slot.author] {
        return AlreadyCommitted;
      }
      var index := slot.height - cacheMark[slot.author] - 1;
      if index < |cache[slot.author]| && cache[slot.author][index] != None {
        reply := Found(cache[slot.author][index].value);
      } else {
        pending := pending + {slot};
        reply := Parked;
      }
    }

    /** Drops committed blocks, raises the watermarks and retires committed leaders. */
    method Clean(newWatermark: Marks)
      requires Valid() && pendingCommit.Some?
      requires forall a :: a in newWatermark ==> Slot(a, newWatermark[a]) in Blocks()
      modifies this
      ensures Valid() && State() == AfterClean(old(State()), newWatermark)
    {
      CutLines(newWatermark);
      commitMark := pendingCommit.value.round;
      uncommitted := map r | r in uncommitted && r > commitMark :: uncommitted[r];
      pending := {};
    }

    method CutLine(id: NodeID, h: int)
      requires Valid() && Slot(id, h) in Blocks()
      modifies this`cache, this`cacheMark
      ensures Valid() && cacheMark == old(cacheMark)[id := h]
      ensures Blocks() == Live(old(Blocks()), cacheMark)
    {
      hide BlocksOf, Windows;
      CutRefines(cache, cacheMark, id, h);
      WindowsShape(cache, cacheMark);
      var next := h - cacheMark[id];
      if |cache[id]| > 0 {
        cache := cache[id := cache[id][next..]];
      }
      cacheMark := cacheMark[id := h];
    }

    method CutLines(newWatermark: Marks)
      requires Valid() && forall a :: a in newWatermark ==> Slot(a, newWatermark[a]) in Blocks()
      modifies this`cache, this`cacheMark
      ensures Valid() && cacheMark == old(cacheMark) + newWatermark
      ensures Blocks() == Live(old(Blocks()), cacheMark)
    {
      var todo := newWatermark.Keys;
      assert newWatermark - todo == map[];
      while todo != {}
        invariant Valid() && todo <= newWatermark.Keys
        invariant cacheMark == old(cacheMark) + (newWatermark - todo)
        invariant Blocks() == Live(old(Blocks()), cacheMark)
        decreases todo
      {
        ghost var some := Pick(todo);
        var id :| id in todo;
        CutStep(old(Blocks()), old(cacheMark), newWatermark, todo, id);
        CutLine(id, newWatermark[id]);
        todo := todo - {id};
      }
      assert newWatermark - todo == newWatermark;
    }

    /** The latest header of author `a` if it counts towards entering the next round. */
    method QualifiedLatest(a: NodeID, round: int) returns (h: Option<Header>)
      requires Valid() && 0 <= a < n
      ensures var latest := LatestHeader(Blocks(), a);
        h == if latest.Some? && Qualifies(round, latest.value) then latest else None
    {
      LatestOfLine(cache, cacheMark, a);
      var line := cache[a];
      if |line| == 0 || line[|line| - 1].value.header.round < round {
        return None;
      }
      var latestB := line[|line| - 1].value.header;
      var gap := latestB.slot.height - latestB.firstRefH;
      if latestB.round > round || (round % 2 == 0 && gap >= 2) || (round > 0 && round % 2 == 1 && gap >= 1) {
        return Some(latestB);
      }
      return None;
    }

    method CollectQualified(round: int) returns (ref: seq<Header>)
      requires Valid()
      ensures ref == Qualified(Blocks(), round, n)
    {
      ref := [];
      for a := 0 to n
        invariant ref == Qualified(Blocks(), round, a)
      {
        var h := QualifiedLatest(a, round);
        if h.Some? {
          ref := ref + [h.value];
        }
      }
    }

    /** Collects the references of a new block proposed from round `round`. */
    method HandleRefReq(round: int) returns (ref: seq<Header>)
      requires Valid()
      ensures ref == RefReply(Blocks(), n, nodeID, round)
    {
      ref := CollectQualified(round);
      if |ref| < HighThreshold(n) {
        LatestOfLine(cache, cacheMark, nodeID);
        var size := |cache[nodeID]|;
        if size > 0 {
          ref := [cache[nodeID][size - 1].value.header];
        }
      }
    }

    method IsAnchorReady(curR: int) returns (ready: bool)
      requires Valid()
      ensures ready <==> Ready(State(), curR)
    {
      var r := commitMark + 2;
      while r <= curR
        invariant r >= commitMark + 2 && (r - commitMark) % 2 == 0
        invariant forall x :: commitMark + 2 <= x < r && (x - commitMark) % 2 == 0 ==> x in uncommitted
        decreases curR - r
      {
        if r !in uncommitted {
          return false;
        }
        r := r + 2;
      }
      return true;
    }

    method HandleCommitReq(req: CommitReq) returns (submit: Option<SubmitReq>)
      requires Valid() && 0 <= req.leader < n
      modifies this
      ensures Valid() && State() == AfterRequest(old(State()), req)
      ensures submit == SubmissionOf(old(State()), req)
    {
      hide Ready, Top, AfterRequest, SubmissionOf, BlocksOf;
      uncommitted := uncommitted[req.round := req.leader];
      if pendingCommit == None || pendingCommit.value.round < req.round {
        pendingCommit := Some(req);
      }
      RequestOutcome(old(State()), req, State());
      var ready := IsAnchorReady(pendingCommit.value.round);
      if !ready {
        return None;
      }
      var pc := pendingCommit.value;
      var top := ScanTop(pc.leader, pc.round);
      if top.Some? {
        submit := Some(SubmitReq(Slot(pc.leader, top.value - 2), pc.round, uncommitted));
      } else {
        submit := None;
        pendingCommit := None;
      }
    }

    /** Scans the leader's line from the top for a block two or more above its round's first. */
    method ScanTop(leader: NodeID, round: int) returns (top: Option<int>)
      requires Valid() && 0 <= leader < n
      ensures top == Top(Blocks(), leader, Strong(round))
    {
      var line := cache[leader];
      var i := |line| - 1;
      ghost var base := cacheMark[leader] + 1;
      while i >= 0
        invariant -1 <= i < |line|
        invariant forall h :: MeetsAt(Blocks(), leader, Strong(round), h) ==> h - base <= i
      {
        if line[i] != None {
          var b := line[i].value.header;
          assert Holds(cache, cacheMark, Slot(leader, base + i));
          if b.round == round && b.slot.height - b.firstRefH >= 2 {
            assert IsTop(Blocks(), leader, Strong(round), b.slot.height);
            return Some(b.slot.height);
          }
        }
        i := i - 1;
      }
      return None;
    }
  }

  lemma LatestOfLine(cache: seq<Line>, mark: Marks, a: NodeID)
    requires Windows(cache, mark) && 0 <= a < |cache|
    ensures LatestHeader(BlocksOf(cache, mark), a)
         == if cache[a] == [] then None else Some(cache[a][|cache[a]| - 1].value.header)
  {
    var g := BlocksOf(cache, mark);
    if cache[a] != [] {
      var h := mark[a] + |cache[a]|;
      assert Holds(cache, mark, Slot(a, h)) && MeetsAt(g, a, Latest, h);
      assert IsTop(g, a, Latest, h);
    }
  }

  /** What a check reports: of the items, in their order, just those whose block is neither held
      nor at or below the watermark. */
  lemma {:induction false} MissingExact(st: Store, items: seq<Header>)
    ensures forall h :: h in Missing(st, items) <==>
              h in items && h.slot !in st.blocks && h.slot.height > MarkOf(st.mark, h.slot.author)
    ensures forall k :: 0 <= k <= |items| ==> Missing(st, items[..k]) <= Missing(st, items)
    decreases |items|
  {
    if items == [] {
    } else {
      var n := |items| - 1;
      MissingExact(st, items[..n]);
      assert items == items[..n] + [items[n]];
      forall k | 0 <= k <= |items| ensures Missing(st, items[..k]) <= Missing(st, items) {
        if k == |items| {
          assert items[..k] == items;
        } else {
          assert items[..n][..k] == items[..k];
        }
      }
    }
  }

  ghost function Missing(st: Store, items: seq<Header>): seq<Header> {
    if items == [] then []
    else
      var last := items[|items| - 1];
      Missing(st, items[..|items| - 1]) + if AnswerPull(st, last.slot).Parked? then [last] else []
  }
}
