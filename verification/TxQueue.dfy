/** The transaction ring buffer and the batches cut from it. */
module TxQueue {
  import opened Types

  datatype Batch<T> = Batch(id: int, txs: seq<T>)

  /** Fixed parameters: capacity, batch size, number of nodes, own number. */
  datatype Config = Config(maxQueueSize: int, batchSize: int, N: int, Id: int)

  /** `rind` is the index last read, `wind` the index next written, `out` the batches sent. */
  datatype Ring<T> = Ring(queue: seq<T>, wind: int, rind: int, nums: int, bcnt: int, out: seq<Batch<T>>)

  ghost predicate InBounds<T>(c: Config, r: Ring<T>) {
    && c.maxQueueSize >= 1 && c.batchSize >= 1
    && |r.queue| == c.maxQueueSize
    && 0 <= r.wind < c.maxQueueSize && -1 <= r.rind < c.maxQueueSize
    && r.nums >= 0 && r.bcnt >= 0
  }

  /** The ring index after `i`. */
  function Succ(i: int, m: int): int {
    if i + 1 == m then 0 else i + 1
  }

  lemma SuccIsModulo(i: int, m: int)
    requires 0 < m && -1 <= i < m
    ensures (i + 1) % m == Succ(i, m)
  {
    if i + 1 < m {
      SmallModulo(i + 1, m);
    }
  }

  lemma SmallModulo(x: int, m: int)
    requires 0 <= x < m
    ensures x % m == x
  {}

  function BatchId(c: Config, k: int): int {
    c.Id + c.N * k
  }

  /** The `k` entries read after index `rind`, and the index the reads end on. */
  ghost function Read<T>(queue: seq<T>, rind: int, k: nat): (res: (seq<T>, int))
    requires |queue| >= 1 && -1 <= rind < |queue|
    ensures -1 <= res.1 < |queue| && |res.0| == k
  {
    if k == 0 then ([], rind)
    else
      var (xs, r) := Read(queue, rind, k - 1);
      var r' := Succ(r, |queue|);
      (xs + [queue[r']], r')
  }

  ghost function Cut<T>(c: Config, r: Ring<T>): Ring<T>
    requires InBounds(c, r)
  {
    var (txs, rind) := Read(r.queue, r.rind, c.batchSize);
    r.(rind := rind, nums := r.nums - c.batchSize, bcnt := r.bcnt + 1,
       out := r.out + [Batch(BatchId(c, r.bcnt), txs)])
  }

  ghost function Offer<T>(c: Config, r: Ring<T>, tx: T): Ring<T>
    requires InBounds(c, r)
  {
    if r.wind == r.rind then r
    else
      var r1 := r.(queue := r.queue[r.wind := tx], wind := Succ(r.wind, c.maxQueueSize), nums := r.nums + 1);
      if r1.nums >= c.batchSize then Cut(c, r1) else r1
  }

  ghost function Offers<T>(c: Config, r: Ring<T>, txs: seq<T>): Ring<T>
    requires InBounds(c, r)
    ensures InBounds(c, Offers(c, r, txs))
  {
    if txs == [] then r else Offer(c, Offers(c, r, txs[..|txs| - 1]), txs[|txs| - 1])
  }

  class TxQueue<T(0)> {
    const c: Config
    var queue: array<T>
    var wind: int
    var rind: int
    var nums: int
    var bcnt: int
    var out: seq<Batch<T>>

    ghost function State(): Ring<T>
      reads this, queue
    {
      Ring(queue[..], wind, rind, nums, bcnt, out)
    }

    constructor (c: Config)
      requires c.maxQueueSize >= 1 && c.batchSize >= 1
      ensures this.c == c && fresh(queue) && InBounds(c, State())
      ensures wind == 0 && rind == -1 && nums == 0 && bcnt == 0 && out == []
    {
      this.c := c;
      queue := new T[c.maxQueueSize];
      wind, rind, nums, bcnt, out := 0, -1, 0, 0, [];
    }

    /** Cuts one batch off the ring and sends it. */
    method Make()
      requires InBounds(c, State())
      modifies this`rind, this`nums, this`bcnt, this`out
      ensures State() == Cut(c, old(State()))
    {
      var txs := ReadOut(c.batchSize);
      out := out + [Batch(c.Id + c.N * bcnt, txs)];
      bcnt := bcnt + 1;
    }

    method ReadOut(k: nat) returns (txs: seq<T>)
      requires queue.Length >= 1 && -1 <= rind < queue.Length
      modifies this`rind, this`nums
      ensures (txs, rind) == Read(queue[..], old(rind), k) && nums == old(nums) - k
    {
      txs := [];
      for i := 0 to k
        invariant -1 <= rind < queue.Length && nums == old(nums) - i
        invariant (txs, rind) == Read(queue[..], old(rind), i)
      {
        SuccIsModulo(rind, queue.Length);
        rind := (rind + 1) % queue.Length;
        txs := txs + [queue[rind]];
        nums := nums - 1;
      }
    }

    method Receive(tx: T)
      requires InBounds(c, State())
      modifies this, queue
      ensures queue == old(queue) && InBounds(c, State())
      ensures State() == Offer(c, old(State()), tx)
    {
      if wind == rind {
        return;
      }
      queue[wind] := tx;
      SuccIsModulo(wind, c.maxQueueSize);
      wind := (wind + 1) % c.maxQueueSize;
      nums := nums + 1;
      assert queue[..] == old(queue[..])[old(wind) := tx];
      if nums >= c.batchSize {
        Make();
      }
    }

    method Run(txs: seq<T>)
      requires InBounds(c, State())
      modifies this, queue
      ensures queue == old(queue) && InBounds(c, State())
      ensures State() == Offers(c, old(State()), txs)
    {
      for i := 0 to |txs|
        invariant queue == old(queue) && InBounds(c, State())
        invariant State() == Offers(c, old(State()), txs[..i])
      {
        assert txs[..i + 1][..i] == txs[..i];
        Receive(txs[i]);
      }
      assert txs[..|txs|] == txs;
    }
  }

  // ---- conservation ----

  ghost function Sent<T>(out: seq<Batch<T>>): seq<T> {
    if out == [] then [] else Sent(out[..|out| - 1]) + out[|out| - 1].txs
  }

  /** What is queued, oldest first. */
  ghost function Queued<T>(r: Ring<T>): seq<T>
    requires |r.queue| >= 1 && -1 <= r.rind < |r.queue| && r.nums >= 0
  {
    Read(r.queue, r.rind, r.nums).0
  }

  /** Index reached from `rind` after `k` reads, for less than one full turn beyond the ring. */
  function Wrap(x: int, m: int): int {
    if x < m then x else x - m
  }

  lemma {:induction false} ReadAt<T>(queue: seq<T>, rind: int, k: nat)
    requires |queue| >= 1 && -1 <= rind < |queue| && k <= |queue|
    ensures k > 0 ==> Read(queue, rind, k).1 == Wrap(rind + k, |queue|)
    ensures forall i :: 0 <= i < k ==> Read(queue, rind, k).0[i] == queue[Wrap(rind + 1 + i, |queue|)]
  {
    if k == 0 {
    } else {
      ReadAt(queue, rind, k - 1);
    }
  }

  /** The ring never runs full: fewer than a batch is queued, and the write index is where the
      queued entries end. */
  ghost predicate Steady<T>(c: Config, r: Ring<T>) {
    && InBounds(c, r) && c.batchSize < c.maxQueueSize
    && r.nums < c.batchSize && r.wind == Wrap(r.rind + 1 + r.nums, c.maxQueueSize)
  }

  lemma OfferAppends<T>(c: Config, r: Ring<T>, tx: T)
    requires Steady(c, r)
    ensures r.wind != r.rind
    ensures var r1 := r.(queue := r.queue[r.wind := tx], wind := Succ(r.wind, c.maxQueueSize), nums := r.nums + 1);
      && InBounds(c, r1) && Queued(r1) == Queued(r) + [tx]
      && r1.wind == Wrap(r1.rind + 1 + r1.nums, c.maxQueueSize)
  {
    hide Read;
    var q := r.queue[r.wind := tx];
    ReadAt(r.queue, r.rind, r.nums);
    ReadAt(q, r.rind, r.nums + 1);
    assert Read(q, r.rind, r.nums + 1).0 == Read(r.queue, r.rind, r.nums).0 + [tx];
  }

  lemma OfferConserves<T>(c: Config, r: Ring<T>, tx: T)
    requires Steady(c, r)
    ensures Steady(c, Offer(c, r, tx)) && r.wind != r.rind
    ensures Sent(Offer(c, r, tx).out) + Queued(Offer(c, r, tx)) == Sent(r.out) + Queued(r) + [tx]
  {
    OfferAppends(c, r, tx);
    var r1 := r.(queue := r.queue[r.wind := tx], wind := Succ(r.wind, c.maxQueueSize), nums := r.nums + 1);
    if r1.nums >= c.batchSize {
      CutConserves(c, r1);
    }
  }

  lemma CutConserves<T>(c: Config, r: Ring<T>)
    requires InBounds(c, r) && c.batchSize < c.maxQueueSize && r.nums == c.batchSize
    requires r.wind == Wrap(r.rind + 1 + r.nums, c.maxQueueSize)
    ensures Steady(c, Cut(c, r)) && Queued(Cut(c, r)) == []
    ensures Sent(Cut(c, r).out) == Sent(r.out) + Queued(r)
  {
    ReadAt(r.queue, r.rind, c.batchSize);
    assert Cut(c, r).out[..|r.out|] == r.out;
  }

  ghost function Empty<T>(queue: seq<T>): Ring<T> {
    Ring(queue, 0, -1, 0, 0, [])
  }

  ghost predicate Numbered<T>(c: Config, r: Ring<T>) {
    && r.bcnt == |r.out|
    && forall k :: 0 <= k < |r.out| ==> r.out[k].id == BatchId(c, k) && |r.out[k].txs| == c.batchSize
  }

  lemma OfferNumbered<T>(c: Config, r: Ring<T>, tx: T)
    requires InBounds(c, r) && Numbered(c, r)
    ensures Numbered(c, Offer(c, r, tx))
  {}

  /** All of `txs` was accepted: sent or queued, in order, in numbered batches of full size. */
  ghost predicate Kept<T>(c: Config, r: Ring<T>, txs: seq<T>) {
    Steady(c, r) && Numbered(c, r) && Sent(r.out) + Queued(r) == txs
  }

  lemma KeptStep<T>(c: Config, r: Ring<T>, txs: seq<T>, tx: T)
    requires Kept(c, r, txs)
    ensures Kept(c, Offer(c, r, tx), txs + [tx]) && r.wind != r.rind
  {
    OfferConserves(c, r, tx);
    OfferNumbered(c, r, tx);
  }

  lemma OffersSnoc<T>(c: Config, r: Ring<T>, txs: seq<T>, tx: T)
    requires InBounds(c, r)
    ensures Offers(c, r, txs + [tx]) == Offer(c, Offers(c, r, txs), tx)
  {
    assert (txs + [tx])[..|txs|] == txs;
  }

  /** Conservation: for every input stream the batches sent, followed by what is still queued,
      are the input in order; nothing is refused; the k-th batch has number `Id + N * k`. */
  lemma {:induction false} RingConserves<T>(c: Config, queue: seq<T>, txs: seq<T>)
    requires 1 <= c.batchSize < c.maxQueueSize == |queue|
    ensures Kept(c, Offers(c, Empty(queue), txs), txs)
    decreases |txs|
  {
    if txs == [] {
    } else {
      var pre, tx := txs[..|txs| - 1], txs[|txs| - 1];
      RingConserves(c, queue, pre);
      assert txs == pre + [tx];
      OffersSnoc(c, Empty(queue), pre, tx);
      KeptStep(c, Offers(c, Empty(queue), pre), pre, tx);
    }
  }

  lemma TimesAtLeast(n: int, d: int)
    requires n > 0 && d >= 1
    ensures n * d >= n
  {
    assert n * d == n + n * (d - 1);
  }

  lemma TimesMinus(n: int, a: int, b: int)
    ensures n * a - n * b == n * (a - b)
  {}

  lemma NumbersApart(n: int, id1: int, k1: int, id2: int, k2: int)
    requires 0 <= id1 < n && 0 <= id2 < n
    ensures id1 + n * k1 == id2 + n * k2 <==> id1 == id2 && k1 == k2
  {
    TimesMinus(n, k1, k2);
    TimesMinus(n, k2, k1);
    if k1 < k2 {
      TimesAtLeast(n, k2 - k1);
    } else if k2 < k1 {
      TimesAtLeast(n, k1 - k2);
    }
  }

  lemma {:induction false} OffersNumbered<T>(c: Config, r: Ring<T>, txs: seq<T>)
    requires InBounds(c, r) && Numbered(c, r)
    ensures Numbered(c, Offers(c, r, txs))
    decreases |txs|
  {
    if txs == [] {
    } else {
      OffersNumbered(c, r, txs[..|txs| - 1]);
      OfferNumbered(c, Offers(c, r, txs[..|txs| - 1]), txs[|txs| - 1]);
    }
  }

  /** Of all the batches any two nodes ever send, no two share a number, be it two batches of one
      node or one of each. */
  lemma BatchNumbersUnique<T>(c: Config, p: seq<T>, xs: seq<T>, d: Config, q: seq<T>, ys: seq<T>, k: nat, l: nat)
    requires c.batchSize >= 1 && 1 <= c.maxQueueSize == |p| && d.batchSize >= 1 && 1 <= d.maxQueueSize == |q|
    requires c.N == d.N && 0 <= c.Id < c.N && 0 <= d.Id < d.N
    requires k < |Offers(c, Empty(p), xs).out| && l < |Offers(d, Empty(q), ys).out|
    ensures Offers(c, Empty(p), xs).out[k].id == Offers(d, Empty(q), ys).out[l].id <==> c.Id == d.Id && k == l
  {
    hide Offers;
    OffersNumbered(c, Empty(p), xs);
    OffersNumbered(d, Empty(q), ys);
    NumbersApart(c.N, c.Id, k, d.Id, l);
  }

  // ---- and exactly when ----

  ghost predicate Conserved<T>(c: Config, queue: seq<T>, txs: seq<T>)
    requires 1 <= c.batchSize && 1 <= c.maxQueueSize == |queue|
  {
    var r := Offers(c, Empty(queue), txs);
    Sent(r.out) + Queued(r) == txs
  }

  lemma OffersStream(c: Config, r: Ring<int>, k: nat)
    requires InBounds(c, r)
    ensures Offers(c, r, UpTo(k + 1)) == Offer(c, Offers(c, r, UpTo(k)), k)
  {
    assert UpTo(k + 1)[..k] == UpTo(k);
  }

  /** Before the first batch is cut the ring just fills from the left; at capacity the write
      index wraps without the ring counting as full. */
  lemma {:induction false} FillUp(c: Config, queue: seq<int>, k: nat)
    requires 1 <= c.maxQueueSize == |queue| && k <= c.maxQueueSize && k < c.batchSize
    ensures var r := Offers(c, Empty(queue), UpTo(k));
      && r.nums == k && r.rind == -1 && r.wind == (if k == |queue| then 0 else k) && r.out == []
      && forall i :: 0 <= i < k ==> r.queue[i] == i
  {
    if k == 0 {
    } else {
      FillUp(c, queue, k - 1);
      OffersStream(c, Empty(queue), k - 1);
    }
  }

  lemma {:induction false} ReadFirst<T>(queue: seq<T>, k: nat)
    requires |queue| >= 1 && k >= 1
    ensures Read(queue, -1, k).0[0] == queue[0]
  {
    if k > 1 {
      ReadFirst(queue, k - 1);
    } else {
      assert Read(queue, -1, 0) == ([], -1);
    }
  }

  /** Batches larger than the ring: the oldest queued transaction is overwritten. */
  lemma OverwritesWhenLarger(c: Config, queue: seq<int>)
    requires 1 <= c.maxQueueSize == |queue| && c.batchSize > c.maxQueueSize
    ensures !Conserved(c, queue, UpTo(c.maxQueueSize + 1))
  {
    var m := c.maxQueueSize;
    FillUp(c, queue, m);
    OffersStream(c, Empty(queue), m);
    var r0 := Offers(c, Empty(queue), UpTo(m));
    var r := Offer(c, r0, m);
    var q := r0.queue[0 := m];
    ReadFirst(q, m + 1);
    if c.batchSize == m + 1 {
      assert r.out == [Batch(BatchId(c, 0), Read(q, -1, m + 1).0)] by { BatchCount(c, Empty(queue), UpTo(m)); }
      assert r.out[..0] == [];
      assert Sent(r.out) == Read(q, -1, m + 1).0;
    } else {
      assert Queued(r) == Read(q, -1, m + 1).0;
    }
    assert (Sent(r.out) + Queued(r))[0] == m;
  }

  lemma {:induction false} BatchCount<T>(c: Config, r: Ring<T>, txs: seq<T>)
    requires InBounds(c, r) && r.bcnt == |r.out|
    ensures Offers(c, r, txs).bcnt == |Offers(c, r, txs).out|
    decreases |txs|
  {
    if txs == [] {
    } else {
      BatchCount(c, r, txs[..|txs| - 1]);
    }
  }

  /** One batch has left, `k` transactions are queued, and the last read slot bounds the ring. */
  ghost predicate Stalled(c: Config, r: Ring<int>, k: nat) {
    && InBounds(c, r) && c.batchSize == c.maxQueueSize
    && r.nums == k && r.rind == c.maxQueueSize - 1 && r.wind == k && |Sent(r.out)| == c.maxQueueSize
  }

  lemma CutWhole(c: Config, r: Ring<int>)
    requires InBounds(c, r) && c.batchSize == c.maxQueueSize == r.nums
    requires r.rind == -1 && r.wind == 0 && r.out == []
    ensures Stalled(c, Cut(c, r), 0)
  {
    ReadAt(r.queue, -1, c.batchSize);
    assert Cut(c, r).out[..0] == [];
  }

  lemma StallStep(c: Config, r: Ring<int>, k: nat, tx: int)
    requires Stalled(c, r, k) && k + 1 < c.maxQueueSize
    ensures Stalled(c, Offer(c, r, tx), k + 1)
  {}

  lemma FirstBatch(c: Config, queue: seq<int>)
    requires 1 <= c.maxQueueSize == |queue| == c.batchSize
    ensures Stalled(c, Offers(c, Empty(queue), UpTo(c.maxQueueSize)), 0)
  {
    var m := c.maxQueueSize;
    FillUp(c, queue, m - 1);
    OffersStream(c, Empty(queue), m - 1);
    var r0 := Offers(c, Empty(queue), UpTo(m - 1));
    hide Offers, Stalled, Cut;
    CutWhole(c, r0.(queue := r0.queue[r0.wind := m - 1], wind := Succ(r0.wind, m), nums := m));
  }

  /** Batches as large as the ring: after the first batch the ring counts as full one short of
      a batch, for ever. */
  lemma {:induction false} StallsWhenEqual(c: Config, queue: seq<int>, k: nat)
    requires 1 <= c.maxQueueSize == |queue| == c.batchSize && k < c.maxQueueSize
    ensures Stalled(c, Offers(c, Empty(queue), UpTo(c.maxQueueSize + k)), k)
  {
    hide Offers, Offer, Stalled;
    var m := c.maxQueueSize;
    if k > 0 {
      var j := m + k - 1;
      StallsWhenEqual(c, queue, k - 1);
      OffersStream(c, Empty(queue), j);
      StallStep(c, Offers(c, Empty(queue), UpTo(j)), k - 1, j);
    } else {
      FirstBatch(c, queue);
    }
  }

  /** No input is ever lost or reordered if and only if a batch is smaller than the ring. */
  lemma ConservationExact(c: Config, queue: seq<int>)
    requires 1 <= c.batchSize && 1 <= c.maxQueueSize == |queue|
    ensures (forall txs :: Conserved(c, queue, txs)) <==> c.batchSize < c.maxQueueSize
  {
    var m := c.maxQueueSize;
    if c.batchSize < m {
      forall txs ensures Conserved(c, queue, txs) {
        RingConserves(c, queue, txs);
      }
    } else if c.batchSize > m {
      OverwritesWhenLarger(c, queue);
    } else {
      StallsWhenEqual(c, queue, m - 1);
      OffersStream(c, Empty(queue), m + m - 1);
      assert !Conserved(c, queue, UpTo(m + m));
    }
  }
}
