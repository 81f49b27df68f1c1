/** The retriever's book of outstanding block requests. A request names the missing references
    of one block; when all of them have been answered that block is looped back. */
module Retriever {
  import opened Types

  /** Digests are only ever compared. */
  type Digest = int

  /** `requests` holds the digests each outstanding request asked the network for, `cnts` how
      many answers each request still waits for, `miss2` which requests wait for a digest,
      `loops` the requests whose block was looped back, in order. */
  datatype Book = Book(
    cnt: nat,
    pending: set<Digest>,
    requests: map<int, seq<Digest>>,
    backs: map<int, Digest>,
    cnts: map<int, int>,
    miss2: map<Digest, seq<int>>,
    loops: seq<int>)

  function WaitersOf(miss2: map<Digest, seq<int>>, d: Digest): seq<int> {
    if d in miss2 then miss2[d] else []
  }

  /** Book-keeping while a new request is entered: `wanted` are the digests to ask for. */
  datatype Entry = Entry(miss2: map<Digest, seq<int>>, pending: set<Digest>, wanted: seq<Digest>)

  function Enter(e: Entry, id: int, d: Digest): Entry {
    Entry(e.miss2[d := WaitersOf(e.miss2, d) + [id]],
          e.pending + {d},
          if d in e.pending then e.wanted else e.wanted + [d])
  }

  function EnterAll(e: Entry, id: int, refs: seq<Digest>): Entry {
    if refs == [] then e else Enter(EnterAll(e, id, refs[..|refs| - 1]), id, refs[|refs| - 1])
  }

  function AfterRequest(b: Book, refs: seq<Digest>, back: Digest): Book {
    var e := EnterAll(Entry(b.miss2, b.pending, []), b.cnt, refs);
    Book(b.cnt + 1, e.pending,
         if |e.wanted| > 0 then b.requests[b.cnt := e.wanted] else b.requests,
         b.backs[b.cnt := back], b.cnts[b.cnt := |refs|], e.miss2, b.loops)
  }

  /** A missing count reads as the zero value of the source's map. */
  datatype Counts = Counts(cnts: map<int, int>, loops: seq<int>)

  function CountOf(cnts: map<int, int>, id: int): int {
    if id in cnts then cnts[id] else 0
  }

  function Decrement(c: Counts, id: int): Counts {
    var k := CountOf(c.cnts, id) - 1;
    Counts(c.cnts[id := k], if k == 0 then c.loops + [id] else c.loops)
  }

  function DecrementAll(c: Counts, ids: seq<int>): Counts {
    if ids == [] then c else Decrement(DecrementAll(c, ids[..|ids| - 1]), ids[|ids| - 1])
  }

  function Answer(b: Book, d: Digest): Book {
    var c := DecrementAll(Counts(b.cnts, b.loops), WaitersOf(b.miss2, d));
    b.(cnts := c.cnts, loops := c.loops, pending := b.pending - {d})
  }

  function AnswerAll(b: Book, ds: seq<Digest>): Book {
    if ds == [] then b else Answer(AnswerAll(b, ds[..|ds| - 1]), ds[|ds| - 1])
  }

  /** A reply to an unknown or finished request changes nothing. */
  function AfterReply(b: Book, id: int): Book {
    if id !in b.requests then b
    else AnswerAll(b, b.requests[id]).(requests := b.requests - {id})
  }

  class Retriever {
    var cnt: nat
    var pending: set<Digest>
    var requests: map<int, seq<Digest>>
    var loopBackBlocks: map<int, Digest>
    var loopBackCnts: map<int, int>
    var miss2Blocks: map<Digest, seq<int>>
    var loops: seq<int>

    ghost function State(): Book
      reads this
    {
      Book(cnt, pending, requests, loopBackBlocks, loopBackCnts, miss2Blocks, loops)
    }

    constructor ()
      ensures State() == Book(0, {}, map[], map[], map[], map[], [])
    {
      cnt, pending, requests, loopBackBlocks, loopBackCnts, miss2Blocks, loops :=
        0, {}, map[], map[], map[], map[], [];
    }

    method Request(missRefs: seq<Digest>, backBlock: Digest)
      modifies this
      ensures State() == AfterRequest(old(State()), missRefs, backBlock)
    {
      loopBackBlocks := loopBackBlocks[cnt := backBlock];
      loopBackCnts := loopBackCnts[cnt := |missRefs|];
      var missBlocks: seq<Digest> := [];
      ghost var e0 := Entry(miss2Blocks, pending, []);
      for i := 0 to |missRefs|
        invariant Entry(miss2Blocks, pending, missBlocks) == EnterAll(e0, cnt, missRefs[..i])
        invariant cnt == old(cnt) && requests == old(requests) && loops == old(loops)
        invariant loopBackBlocks == old(loopBackBlocks)[cnt := backBlock]
        invariant loopBackCnts == old(loopBackCnts)[cnt := |missRefs|]
      {
        assert missRefs[..i + 1][..i] == missRefs[..i];
        var d := missRefs[i];
        miss2Blocks := miss2Blocks[d := WaitersOf(miss2Blocks, d) + [cnt]];
        if d !in pending {
          missBlocks := missBlocks + [d];
        }
        pending := pending + {d};
      }
      assert missRefs[..|missRefs|] == missRefs;
      if |missBlocks| > 0 {
        requests := requests[cnt := missBlocks];
      }
      cnt := cnt + 1;
    }

    method Reply(reqID: int)
      modifies this
      ensures State() == AfterReply(old(State()), reqID)
    {
      if reqID in requests {
        var ds := requests[reqID];
        for i := 0 to |ds|
          invariant State() == AnswerAll(old(State()), ds[..i])
        {
          assert ds[..i + 1][..i] == ds[..i];
          AnswerOne(ds[i]);
        }
        assert ds[..|ds|] == ds;
        AnswersKeepRequests(old(State()), ds);
        requests := requests - {reqID};
      }
    }

    method AnswerOne(d: Digest)
      modifies this`loopBackCnts, this`loops, this`pending
      ensures State() == Answer(old(State()), d)
    {
      var ids := WaitersOf(miss2Blocks, d);
      for j := 0 to |ids|
        invariant Counts(loopBackCnts, loops)
               == DecrementAll(Counts(old(loopBackCnts), old(loops)), ids[..j])
        invariant pending == old(pending)
      {
        assert ids[..j + 1][..j] == ids[..j];
        var id := ids[j];
        loopBackCnts := loopBackCnts[id := CountOf(loopBackCnts, id) - 1];
        if loopBackCnts[id] == 0 {
          loops := loops + [id];
        }
      }
      assert ids[..|ids|] == ids;
      pending := pending - {d};
    }
  }

  lemma {:induction false} AnswersKeepRequests(b: Book, ds: seq<Digest>)
    ensures AnswerAll(b, ds).requests == b.requests && AnswerAll(b, ds).miss2 == b.miss2
    ensures AnswerAll(b, ds).cnt == b.cnt && AnswerAll(b, ds).backs == b.backs
    ensures AnswerAll(b, ds).pending == b.pending - Elems(ds)
    decreases |ds|
  {
    if ds == [] {
    } else {
      AnswersKeepRequests(b, ds[..|ds| - 1]);
      assert ds == ds[..|ds| - 1] + [ds[|ds| - 1]];
    }
  }
}
