/** Per-author sliding windows as a representation of a plain block map. Line `a` starts just
    above `mark[a]`, may have holes, and never ends in one. */
module Window {
  import opened Types
  import opened Anchors

  type Line = seq<Option<Block>>

  ghost predicate ValidLine(a: NodeID, line: Line, mark: int) {
    && (forall i :: 0 <= i < |line| && line[i].Some? ==> line[i].value.header.slot == Slot(a, mark + 1 + i))
    && (line != [] ==> line[|line| - 1].Some?)
  }

  ghost predicate Windows(cache: seq<Line>, mark: Marks) {
    && (forall a :: a in mark <==> 0 <= a < |cache|)
    && (forall a :: 0 <= a < |cache| ==> ValidLine(a, cache[a], mark[a]))
  }

  lemma WindowsShape(cache: seq<Line>, mark: Marks)
    requires Windows(cache, mark)
    ensures forall a :: a in mark <==> 0 <= a < |cache|
  {}

  ghost predicate Holds(cache: seq<Line>, mark: Marks, s: Slot)
    requires Windows(cache, mark)
  {
    && 0 <= s.author < |cache|
    && 0 <= s.height - mark[s.author] - 1 < |cache[s.author]|
    && cache[s.author][s.height - mark[s.author] - 1].Some?
  }

  ghost function At(cache: seq<Line>, mark: Marks, s: Slot): Block
    requires Windows(cache, mark) && Holds(cache, mark, s)
  {
    cache[s.author][s.height - mark[s.author] - 1].value
  }

  /** The plain map the windows stand for. */
  ghost function BlocksOf(cache: seq<Line>, mark: Marks): (g: Graph)
    requires Windows(cache, mark)
    ensures forall s :: s in g <==> Holds(cache, mark, s)
    ensures forall s :: s in g ==> g[s] == At(cache, mark, s) && g[s].header.slot == s && !Committed(mark, s)
  {
    var slots := set a, i | 0 <= a < |cache| && 0 <= i < |cache[a]| && cache[a][i].Some? :: Slot(a, mark[a] + 1 + i);
    assert forall s :: s in slots <==> Holds(cache, mark, s) by {
      forall s | Holds(cache, mark, s) ensures s in slots {
        var i := s.height - mark[s.author] - 1;
        assert s == Slot(s.author, mark[s.author] + 1 + i);
      }
    }
    map s | s in slots :: At(cache, mark, s)
  }

  function Widen(line: Line, len: nat): (wide: Line)
    ensures |wide| == if |line| < len then len else |line|
    ensures forall i :: 0 <= i < |wide| ==> wide[i] == if i < |line| then line[i] else None
  {
    if |line| < len then line + seq(len - |line|, _ => None) else line
  }

  ghost function Written(cache: seq<Line>, mark: Marks, b: Block): seq<Line>
    requires Windows(cache, mark) && b.header.slot.author in mark && !Committed(mark, b.header.slot)
  {
    var s := b.header.slot;
    var i := s.height - mark[s.author] - 1;
    cache[s.author := Widen(cache[s.author], i + 1)[i := Some(b)]]
  }

  lemma WrittenValid(cache: seq<Line>, mark: Marks, b: Block)
    requires Windows(cache, mark) && b.header.slot.author in mark && !Committed(mark, b.header.slot)
    ensures Windows(Written(cache, mark, b), mark)
  {
    var s := b.header.slot;
    assert ValidLine(s.author, Written(cache, mark, b)[s.author], mark[s.author]);
  }

  /** Writing a block at its offset, growing the line if needed, is a map update. */
  lemma PushRefines(cache: seq<Line>, mark: Marks, b: Block)
    requires Windows(cache, mark) && b.header.slot.author in mark && !Committed(mark, b.header.slot)
    ensures Windows(Written(cache, mark, b), mark)
    ensures BlocksOf(Written(cache, mark, b), mark) == BlocksOf(cache, mark)[b.header.slot := b]
  {
    WrittenValid(cache, mark, b);
    var g, g' := BlocksOf(cache, mark)[b.header.slot := b], BlocksOf(Written(cache, mark, b), mark);
    forall t ensures t in g' <==> t in g
             ensures t in g' && t in g ==> g'[t] == g[t]
    {
      WrittenHolds(cache, mark, b, t);
    }
    SameMap(g', g);
  }

  lemma WrittenHolds(cache: seq<Line>, mark: Marks, b: Block, t: Slot)
    requires Windows(cache, mark) && b.header.slot.author in mark && !Committed(mark, b.header.slot)
    ensures Windows(Written(cache, mark, b), mark)
    ensures Holds(Written(cache, mark, b), mark, t) <==> t == b.header.slot || Holds(cache, mark, t)
    ensures Holds(Written(cache, mark, b), mark, t) ==>
            At(Written(cache, mark, b), mark, t) == if t == b.header.slot then b else At(cache, mark, t)
  {
    WrittenValid(cache, mark, b);
  }

  lemma SameMap(g: Graph, h: Graph)
    requires forall t :: t in g <==> t in h
    requires forall t :: t in g ==> g[t] == h[t]
    ensures g == h
  {}

  ghost function Cut(cache: seq<Line>, mark: Marks, a: NodeID, h: int): seq<Line>
    requires Windows(cache, mark) && a in mark && 0 <= h - mark[a] <= |cache[a]|
  {
    cache[a := cache[a][h - mark[a]..]]
  }

  lemma CutValid(cache: seq<Line>, mark: Marks, a: NodeID, h: int)
    requires Windows(cache, mark) && a in mark && 0 <= h - mark[a] <= |cache[a]|
    ensures Windows(Cut(cache, mark, a, h), mark[a := h])
  {
    var line := cache[a][h - mark[a]..];
    assert forall i :: 0 <= i < |line| ==> line[i] == cache[a][h - mark[a] + i];
    assert ValidLine(a, line, h);
  }

  lemma CutHolds(cache: seq<Line>, mark: Marks, a: NodeID, h: int, t: Slot)
    requires Windows(cache, mark) && a in mark && 0 <= h - mark[a] <= |cache[a]|
    ensures Windows(Cut(cache, mark, a, h), mark[a := h])
    ensures Holds(Cut(cache, mark, a, h), mark[a := h], t)
       <==> Holds(cache, mark, t) && !Committed(mark[a := h], t)
    ensures Holds(Cut(cache, mark, a, h), mark[a := h], t) ==>
            At(Cut(cache, mark, a, h), mark[a := h], t) == At(cache, mark, t)
  {
    CutValid(cache, mark, a, h);
    var line := cache[a][h - mark[a]..];
    if t.author == a && 0 <= t.height - h - 1 < |line| {
      assert line[t.height - h - 1] == cache[a][t.height - mark[a] - 1];
    }
  }

  /** Slicing one line off at a held slot is a cut of the map at the new watermark; the slice
      bound never exceeds the line. */
  lemma CutRefines(cache: seq<Line>, mark: Marks, a: NodeID, h: int)
    requires Windows(cache, mark) && Slot(a, h) in BlocksOf(cache, mark)
    ensures a in mark && 0 < h - mark[a] <= |cache[a]|
    ensures Windows(Cut(cache, mark, a, h), mark[a := h])
    ensures BlocksOf(Cut(cache, mark, a, h), mark[a := h]) == Live(BlocksOf(cache, mark), mark[a := h])
  {
    assert Holds(cache, mark, Slot(a, h));
    CutValid(cache, mark, a, h);
    var g, g' := Live(BlocksOf(cache, mark), mark[a := h]), BlocksOf(Cut(cache, mark, a, h), mark[a := h]);
    forall t ensures t in g' <==> t in g
             ensures t in g' && t in g ==> g'[t] == g[t]
    {
      CutHolds(cache, mark, a, h, t);
    }
    SameMap(g', g);
  }

  /** Cutting authors one at a time adds up to one cut at all the new watermarks. */
  lemma CutStep(g: Graph, m: Marks, wm: Marks, todo: set<NodeID>, a: NodeID)
    requires a in todo && todo <= wm.Keys
    requires forall s :: s in g ==> !Committed(m, s)
    requires forall x :: x in wm ==> Slot(x, wm[x]) in g
    ensures m + (wm - (todo - {a})) == (m + (wm - todo))[a := wm[a]]
    ensures Slot(a, wm[a]) in Live(g, m + (wm - todo))
    ensures Live(Live(g, m + (wm - todo)), m + (wm - (todo - {a}))) == Live(g, m + (wm - (todo - {a})))
  {
    assert !Committed(m, Slot(a, wm[a]));
  }
}
