/** What the retriever's book guarantees over whole runs. */
module Retrievals {
  import opened Types
  import opened Retriever

  /** `asked[id]` are the references request `id` was entered with. */
  type Asked = seq<seq<Digest>>

  ghost function Times(xs: seq<int>, x: int): nat {
    multiset(xs)[x]
  }

  lemma TimesSnoc(xs: seq<int>, x: int)
    requires xs != []
    ensures Times(xs, x) == Times(xs[..|xs| - 1], x) + if xs[|xs| - 1] == x then 1 else 0
  {
    assert xs == xs[..|xs| - 1] + [xs[|xs| - 1]];
  }

  /** How many entries of `refs` lie in `p`. */
  ghost function Waiting(refs: seq<Digest>, p: set<Digest>): nat {
    if refs == [] then 0
    else Waiting(refs[..|refs| - 1], p) + if refs[|refs| - 1] in p then 1 else 0
  }

  lemma {:induction false} WaitingLess(refs: seq<Digest>, p: set<Digest>, d: Digest)
    requires d in p
    ensures Waiting(refs, p - {d}) == Waiting(refs, p) - Times(refs, d)
    decreases |refs|
  {
    if refs == [] {
    } else {
      WaitingLess(refs[..|refs| - 1], p, d);
      TimesSnoc(refs, d);
    }
  }

  lemma {:induction false} WaitingMonotone(refs: seq<Digest>, p: set<Digest>, q: set<Digest>)
    requires p <= q
    ensures Waiting(refs, p) <= Waiting(refs, q) <= |refs|
    ensures Waiting(refs, p) == Waiting(refs, q) <==> forall d :: d in refs && d in q ==> d in p
    decreases |refs|
  {
    if refs == [] {
    } else {
      var pre, x := refs[..|refs| - 1], refs[|refs| - 1];
      WaitingMonotone(pre, p, q);
      assert forall d :: d in refs <==> d in pre || d == x;
    }
  }

  lemma {:induction false} WaitingZero(refs: seq<Digest>, p: set<Digest>)
    ensures Waiting(refs, p) == 0 <==> forall d :: d in refs ==> d !in p
    decreases |refs|
  {
    if refs == [] {
    } else {
      var pre, x := refs[..|refs| - 1], refs[|refs| - 1];
      WaitingZero(pre, p);
      assert forall d :: d in refs <==> d in pre || d == x;
    }
  }

  // ---- what holds in every run ----

  /** `pending` is the disjoint union of the outstanding requests' digests. */
  ghost predicate Outstanding(b: Book) {
    && (forall id :: id in b.requests ==> 0 <= id < b.cnt && NoDup(b.requests[id]))
    && (forall id, d :: id in b.requests && d in b.requests[id] ==> d in b.pending)
    && (forall d :: d in b.pending ==> exists id :: id in b.requests && d in b.requests[id])
    && (forall i, j, d :: i in b.requests && j in b.requests && d in b.requests[i] && d in b.requests[j] ==> i == j)
  }

  /** The waiters of a digest are the requests that asked for it, with multiplicity. */
  ghost predicate Linked(b: Book, asked: Asked) {
    && |asked| == b.cnt
    && (forall id :: id in b.cnts <==> 0 <= id < b.cnt)
    && (forall d, id :: LinkedAt(b, asked, d, id))
  }

  ghost predicate LinkedAt(b: Book, asked: Asked, d: Digest, id: int)
    requires |asked| == b.cnt
  {
    Times(WaitersOf(b.miss2, d), id) == if 0 <= id < b.cnt then Times(asked[id], d) else 0
  }

  /** No request is looped back twice: one that was has no positive count left. */
  ghost predicate LoopedOnce(b: Book) {
    && NoDup(b.loops)
    && (forall id :: id in b.loops ==> 0 <= id < b.cnt && CountOf(b.cnts, id) <= 0)
  }

  ghost predicate Inv(b: Book, asked: Asked) {
    Outstanding(b) && Linked(b, asked) && LoopedOnce(b)
  }

  // entering a request

  lemma {:induction false} EnterAllWanted(e: Entry, id: int, refs: seq<Digest>)
    requires e.wanted == []
    ensures var f := EnterAll(e, id, refs);
      && f.pending == e.pending + Elems(refs)
      && NoDup(f.wanted) && Elems(f.wanted) == Elems(refs) - e.pending
    decreases |refs|
  {
    if refs == [] {
    } else {
      var pre, r := refs[..|refs| - 1], refs[|refs| - 1];
      EnterAllWanted(e, id, pre);
      var f := EnterAll(e, id, pre);
      assert refs == pre + [r];
      ElemsConcat(pre, [r]);
      ElemsConcat(f.wanted, [r]);
      if r !in f.pending {
        assert r !in Elems(f.wanted);
        NoDupConcat(f.wanted, [r]);
      }
    }
  }

  lemma {:induction false} EnterAllWaiters(e: Entry, id: int, refs: seq<Digest>, d: Digest, x: int)
    ensures Times(WaitersOf(EnterAll(e, id, refs).miss2, d), x)
         == Times(WaitersOf(e.miss2, d), x) + if x == id then Times(refs, d) else 0
    decreases |refs|
  {
    if refs == [] {
    } else {
      var pre, r := refs[..|refs| - 1], refs[|refs| - 1];
      EnterAllWaiters(e, id, pre, d, x);
      TimesSnoc(refs, d);
      if d == r {
        var ws := WaitersOf(EnterAll(e, id, pre).miss2, d);
        TimesSnoc(ws + [id], x);
        assert (ws + [id])[..|ws|] == ws;
      }
    }
  }

  lemma RequestOutstanding(b: Book, refs: seq<Digest>, back: Digest)
    requires Outstanding(b)
    ensures Outstanding(AfterRequest(b, refs, back))
    ensures AfterRequest(b, refs, back).pending == b.pending + Elems(refs)
  {
    hide EnterAll;
    var e := Entry(b.miss2, b.pending, []);
    var f := EnterAll(e, b.cnt, refs);
    EnterAllWanted(e, b.cnt, refs);
    var b' := AfterRequest(b, refs, back);
    assert forall d :: d in f.wanted <==> d in Elems(f.wanted);
    forall d | d in b'.pending ensures exists id :: id in b'.requests && d in b'.requests[id] {
      if d in b.pending {
        var id :| id in b.requests && d in b.requests[id];
        assert id in b'.requests && d in b'.requests[id];
      } else {
        assert d in Elems(f.wanted) && d in b'.requests[b.cnt];
      }
    }
  }

  lemma RequestLinked(b: Book, asked: Asked, refs: seq<Digest>, back: Digest)
    requires Linked(b, asked)
    ensures Linked(AfterRequest(b, refs, back), asked + [refs])
  {
    var e := Entry(b.miss2, b.pending, []);
    var b' := AfterRequest(b, refs, back);
    forall d, id ensures LinkedAt(b', asked + [refs], d, id) {
      EnterAllWaiters(e, b.cnt, refs, d, id);
      assert LinkedAt(b, asked, d, id);
    }
  }

  lemma RequestInv(b: Book, asked: Asked, refs: seq<Digest>, back: Digest)
    requires Inv(b, asked)
    ensures Inv(AfterRequest(b, refs, back), asked + [refs])
  {
    RequestOutstanding(b, refs, back);
    RequestLinked(b, asked, refs, back);
  }

  // answering

  ghost predicate CountsOk(c: Counts) {
    NoDup(c.loops) && forall y :: y in c.loops ==> CountOf(c.cnts, y) <= 0
  }

  lemma {:induction false} DecrementAllEffect(c: Counts, ids: seq<int>, x: int)
    requires CountsOk(c)
    ensures var c' := DecrementAll(c, ids);
      && CountsOk(c')
      && CountOf(c'.cnts, x) == CountOf(c.cnts, x) - Times(ids, x)
      && (x in c'.cnts <==> x in c.cnts || x in ids)
      && (x in c'.loops <==> x in c.loops || CountOf(c.cnts, x) > 0 >= CountOf(c'.cnts, x))
    decreases |ids|
  {
    if ids == [] {
    } else {
      var pre, y := ids[..|ids| - 1], ids[|ids| - 1];
      DecrementAllEffect(c, pre, x);
      TimesSnoc(ids, x);
      assert forall z :: z in ids <==> z in pre || z == y;
      var d := DecrementAll(c, pre);
      assert forall z :: z in d.loops + [y] <==> z in d.loops || z == y;
    }
  }

  lemma AnswerKeeps(b: Book, asked: Asked, d: Digest)
    requires Linked(b, asked) && LoopedOnce(b)
    ensures Linked(Answer(b, d), asked) && LoopedOnce(Answer(b, d))
  {
    var c, ids := Counts(b.cnts, b.loops), WaitersOf(b.miss2, d);
    var b' := Answer(b, d);
    forall x ensures (x in b'.cnts <==> 0 <= x < b.cnt) && (x in b'.loops ==> 0 <= x < b.cnt) {
      DecrementAllEffect(c, ids, x);
      assert LinkedAt(b, asked, d, x);
      assert x in ids <==> Times(ids, x) > 0;
    }
    DecrementAllEffect(c, ids, 0);
    forall e, id ensures LinkedAt(b', asked, e, id) {
      assert LinkedAt(b, asked, e, id);
    }
  }

  /** Each count is the number of the request's references still pending, and a request has
      been looped back exactly if it had references and none is pending any more. */
  ghost predicate Counted(b: Book, asked: Asked) {
    && |asked| == b.cnt
    && forall id :: 0 <= id < b.cnt ==> CountedAt(b, asked[id], id)
  }

  ghost predicate CountedAt(b: Book, refs: seq<Digest>, id: int) {
    && CountOf(b.cnts, id) == Waiting(refs, b.pending)
    && (id in b.loops <==> refs != [] && forall d :: d in refs ==> d !in b.pending)
  }

  lemma AnswerCounted(b: Book, asked: Asked, d: Digest)
    requires Linked(b, asked) && LoopedOnce(b) && Counted(b, asked) && d in b.pending
    ensures Counted(Answer(b, d), asked)
  {
    var c, ids := Counts(b.cnts, b.loops), WaitersOf(b.miss2, d);
    var b' := Answer(b, d);
    forall id | 0 <= id < b.cnt ensures CountedAt(b', asked[id], id) {
      assert CountedAt(b, asked[id], id);
      DecrementAllEffect(c, ids, id);
      assert LinkedAt(b, asked, d, id);
      WaitingLess(asked[id], b.pending, d);
      WaitingZero(asked[id], b.pending);
      WaitingZero(asked[id], b'.pending);
    }
  }

  lemma {:induction false} AnswersKeep(b: Book, asked: Asked, ds: seq<Digest>)
    requires Linked(b, asked) && LoopedOnce(b) && NoDup(ds) && Elems(ds) <= b.pending
    ensures Linked(AnswerAll(b, ds), asked) && LoopedOnce(AnswerAll(b, ds))
    ensures Counted(b, asked) ==> Counted(AnswerAll(b, ds), asked)
    decreases |ds|
  {
    if ds == [] {
    } else {
      var pre, d := ds[..|ds| - 1], ds[|ds| - 1];
      assert forall x :: x in pre ==> x in Elems(ds);
      assert d in Elems(ds) && d !in pre;
      AnswersKeep(b, asked, pre);
      AnswersKeepRequests(b, pre);
      AnswerKeeps(AnswerAll(b, pre), asked, d);
      if Counted(b, asked) {
        AnswerCounted(AnswerAll(b, pre), asked, d);
      }
    }
  }

  lemma ReplyKeeps(b: Book, asked: Asked, id: int)
    requires Inv(b, asked)
    ensures Inv(AfterReply(b, id), asked)
    ensures Counted(b, asked) ==> Counted(AfterReply(b, id), asked)
  {
    if id in b.requests {
      var ds, b' := b.requests[id], AfterReply(b, id);
      assert forall d :: d in ds ==> d in b.requests[id] && d in b.pending;
      AnswersKeep(b, asked, ds);
      AnswersKeepRequests(b, ds);
      forall d | d in b'.pending ensures exists i :: i in b'.requests && d in b'.requests[i] {
        var i :| i in b.requests && d in b.requests[i];
        assert i in b'.requests;
      }
      RequestsIrrelevant(AnswerAll(b, ds), asked, b.requests - {id});
    }
  }

  lemma RequestsIrrelevant(b: Book, asked: Asked, requests: map<int, seq<Digest>>)
    requires Linked(b, asked)
    ensures Linked(b.(requests := requests), asked)
    ensures Counted(b, asked) ==> Counted(b.(requests := requests), asked)
  {
    var b' := b.(requests := requests);
    forall d, id ensures LinkedAt(b', asked, d, id) {
      assert LinkedAt(b, asked, d, id);
    }
    forall i | 0 <= i < b.cnt && CountedAt(b, asked[i], i) ensures CountedAt(b', asked[i], i) {}
  }

  /** A digest is asked for again after its reply. */
  ghost predicate Reasked(b: Book, asked: Asked, refs: seq<Digest>) {
    exists d, id :: d in refs && d !in b.pending && 0 <= id < |asked| && d in asked[id]
  }

  /** Entering a request keeps the counts right if and only if it repeats no answered digest. */
  lemma RequestCountedExact(b: Book, asked: Asked, refs: seq<Digest>, back: Digest)
    requires Inv(b, asked) && Counted(b, asked)
    ensures Counted(AfterRequest(b, refs, back), asked + [refs]) <==> !Reasked(b, asked, refs)
  {
    var b', asked' := AfterRequest(b, refs, back), asked + [refs];
    RequestOutstanding(b, refs, back);
    forall id | 0 <= id < b.cnt
      ensures CountedAt(b', asked'[id], id) <==> forall d :: d in refs && d in asked[id] ==> d in b.pending
    {
      assert CountedAt(b, asked[id], id);
      WaitingMonotone(asked[id], b.pending, b'.pending);
    }
    assert CountedAt(b', asked'[b.cnt], b.cnt) by {
      WaitingAll(refs, b'.pending);
      assert refs != [] ==> refs[0] in refs && refs[0] in b'.pending;
    }
  }

  lemma {:induction false} WaitingAll(refs: seq<Digest>, p: set<Digest>)
    requires forall d :: d in refs ==> d in p
    ensures Waiting(refs, p) == |refs|
  {
    if refs == [] {
    } else {
      var x := refs[|refs| - 1];
      assert x in refs && x in p;
      assert forall d :: d in refs[..|refs| - 1] ==> d in refs;
      WaitingAll(refs[..|refs| - 1], p);
    }
  }

  // ---- whole runs ----

  datatype Event = Ask(refs: seq<Digest>, back: Digest) | Got(id: int)

  datatype Trail = Trail(book: Book, asked: Asked)

  ghost function Start(): Trail {
    Trail(Book(0, {}, map[], map[], map[], map[], []), [])
  }

  ghost function Step(t: Trail, e: Event): Trail {
    match e
    case Ask(refs, back) => Trail(AfterRequest(t.book, refs, back), t.asked + [refs])
    case Got(id) => t.(book := AfterReply(t.book, id))
  }

  ghost function Run(t: Trail, es: seq<Event>): Trail
    decreases |es|
  {
    if es == [] then t else Run(Step(t, es[0]), es[1..])
  }

  /** No request of the run repeats a digest that was already answered. */
  ghost predicate NoRepeats(t: Trail, es: seq<Event>)
    decreases |es|
  {
    es == [] || (
      && (es[0].Ask? ==> !Reasked(t.book, t.asked, es[0].refs))
      && NoRepeats(Step(t, es[0]), es[1..]))
  }

  lemma {:induction false} RunKeeps(t: Trail, es: seq<Event>)
    requires Inv(t.book, t.asked)
    ensures Inv(Run(t, es).book, Run(t, es).asked)
    ensures Counted(t.book, t.asked) && NoRepeats(t, es) ==> Counted(Run(t, es).book, Run(t, es).asked)
    decreases |es|
  {
    if es == [] {
    } else {
      match es[0] {
        case Ask(refs, back) =>
          RequestInv(t.book, t.asked, refs, back);
          if Counted(t.book, t.asked) {
            RequestCountedExact(t.book, t.asked, refs, back);
          }
        case Got(id) =>
          ReplyKeeps(t.book, t.asked, id);
      }
      RunKeeps(Step(t, es[0]), es[1..]);
    }
  }

  /** In every run, `pending` is the disjoint union of the outstanding requests' digests and no
      request is looped back twice. If no digest is asked for again after its reply, a request
      has been looped back exactly when it has references and the last of them was answered. */
  lemma BookTheorem(es: seq<Event>)
    ensures Outstanding(Run(Start(), es).book) && NoDup(Run(Start(), es).book.loops)
    ensures NoRepeats(Start(), es) ==> Counted(Run(Start(), es).book, Run(Start(), es).asked)
  {
    RunKeeps(Start(), es);
  }

  /** The blocks of the run's requests, in order. */
  ghost function BlocksIn(es: seq<Event>): seq<Digest>
    decreases |es|
  {
    if es == [] then [] else (if es[0].Ask? then [es[0].back] else []) + BlocksIn(es[1..])
  }

  /** `backs` names, for each request so far, the block it was made for. */
  ghost predicate Backed(b: Book, blocks: seq<Digest>) {
    && |blocks| == b.cnt
    && (forall id :: id in b.backs <==> 0 <= id < b.cnt)
    && (forall id :: 0 <= id < b.cnt ==> b.backs[id] == blocks[id])
  }

  lemma BackedStep(t: Trail, e: Event, blocks: seq<Digest>)
    requires Backed(t.book, blocks)
    ensures Backed(Step(t, e).book, blocks + if e.Ask? then [e.back] else [])
  {
    if e.Got? && e.id in t.book.requests {
      AnswersKeepRequests(t.book, t.book.requests[e.id]);
    }
  }

  lemma {:induction false} BackedRun(t: Trail, es: seq<Event>, blocks: seq<Digest>)
    requires Backed(t.book, blocks)
    ensures Backed(Run(t, es).book, blocks + BlocksIn(es))
    decreases |es|
  {
    hide Backed, Step;
    if es == [] {
      assert blocks + BlocksIn(es) == blocks;
    } else {
      BackedStep(t, es[0], blocks);
      var first := if es[0].Ask? then [es[0].back] else [];
      BackedRun(Step(t, es[0]), es[1..], blocks + first);
      assert BlocksIn(es) == first + BlocksIn(es[1..]);
      assert (blocks + first) + BlocksIn(es[1..]) == blocks + (first + BlocksIn(es[1..]));
    }
  }

  /** In every run the block looped back for a request is the one the request was made for: ids
      are given out in order and an entry of `backs` never changes. */
  lemma LoopsBackItsOwn(es: seq<Event>)
    ensures Backed(Run(Start(), es).book, BlocksIn(es))
    ensures forall id :: id in Run(Start(), es).book.loops ==> 0 <= id < |BlocksIn(es)|
  {
    RunKeeps(Start(), es);
    BackedRun(Start(), es, []);
  }

  /** Request 1 waits for digests 7 and 8; 7 has been answered once. */
  ghost predicate HalfAnswered(t: Trail) {
    && t.asked == [[7], [7, 8]] && t.book.cnt == 2 && t.book.pending == {8}
    && WaitersOf(t.book.miss2, 7) == [0, 1] && t.book.cnts == map[0 := 0, 1 := 1]
  }

  ghost predicate AskedOnce(t: Trail) {
    && t.asked == [[7]] && t.book.cnt == 1 && t.book.pending == {7} && t.book.loops == []
    && t.book.miss2 == map[7 := [0]] && t.book.requests == map[0 := [7]] && t.book.cnts == map[0 := 1]
  }

  ghost predicate AskedTwice(t: Trail) {
    && t.asked == [[7], [7, 8]] && t.book.cnt == 2 && t.book.pending == {7, 8} && t.book.loops == []
    && WaitersOf(t.book.miss2, 7) == [0, 1] && 0 in t.book.requests && t.book.requests[0] == [7]
    && t.book.cnts == map[0 := 1, 1 := 2]
  }

  lemma ReachAskedOnce(e: Event)
    requires e == Ask([7], 0)
    ensures AskedOnce(Step(Start(), e))
  {
    EnterOne(Entry(map[], {}, []), 0, 7);
    var none: seq<int> := [];
    assert none + [0] == [0] && none + [7] == [7];
  }

  lemma ReachAskedTwice(t: Trail, e: Event)
    requires AskedOnce(t) && e == Ask([7, 8], 0)
    ensures AskedTwice(Step(t, e))
  {
    EnterTwo(Entry(t.book.miss2, {7}, []), 1, 7, 8);
    assert WaitersOf(Step(t, e).book.miss2, 7) == [0] + [1];
  }

  lemma ReachHalfAnswered(t: Trail, e: Event)
    requires AskedTwice(t) && e == Got(0)
    ensures HalfAnswered(Step(t, e))
  {
    hide AnswerAll, DecrementAll;
    AnswerLone(t.book, 7);
    DecrementTwo(Counts(t.book.cnts, []), 0, 1);
  }

  lemma RepeatFires(t: Trail, e3: Event, e4: Event)
    requires HalfAnswered(t) && e3 == Ask([7], 0) && e4 == Got(2)
    ensures var t' := Step(Step(t, e3), e4);
      t'.asked == [[7], [7, 8], [7]] && 1 in t'.book.loops && 8 in t'.book.pending
  {
    hide EnterAll, AnswerAll, DecrementAll;
    var b := AfterRequest(t.book, [7], 0);
    EnterOne(Entry(t.book.miss2, {8}, []), 2, 7);
    assert WaitersOf(b.miss2, 7) == [0, 1] + [2] && b.requests[2] == [7];
    AnswerLone(b, 7);
    DecrementSnoc(Counts(b.cnts, b.loops), [0, 1], 2);
    DecrementTwo(Counts(b.cnts, b.loops), 0, 1);
  }

  /** With a repeat, a block can be looped back while one of its references is still missing:
      request 1 waits for digests 7 and 8, and 7 is answered, asked for again, answered again. */
  lemma RepeatLoopsBackEarly() returns (es: seq<Event>)
    ensures var t := Run(Start(), es);
      t.asked == [[7], [7, 8], [7]] && 1 in t.book.loops && 8 in t.book.pending
  {
    var e0, e1, e2, e3, e4 := Ask([7], 0), Ask([7, 8], 0), Got(0), Ask([7], 0), Got(2);
    var t1 := Step(Start(), e0);
    var t3 := Step(Step(t1, e1), e2);
    ReachAskedOnce(e0);
    ReachAskedTwice(t1, e1);
    ReachHalfAnswered(Step(t1, e1), e2);
    RepeatFires(t3, e3, e4);
    es := [];
    RunCons(Step(t3, e3), e4, es); es := [e4] + es;
    RunCons(t3, e3, es); es := [e3] + es;
    RunCons(Step(t1, e1), e2, es); es := [e2] + es;
    RunCons(t1, e1, es); es := [e1] + es;
    RunCons(Start(), e0, es); es := [e0] + es;
  }

  lemma RunCons(t: Trail, e: Event, es: seq<Event>)
    ensures Run(t, [e] + es) == Run(Step(t, e), es)
  {
    assert ([e] + es)[1..] == es;
  }

  lemma EnterOne(e: Entry, id: int, d: Digest)
    ensures EnterAll(e, id, [d]) == Enter(e, id, d)
  {
    assert [d][..0] == [];
  }

  lemma EnterTwo(e: Entry, id: int, c: Digest, d: Digest)
    ensures EnterAll(e, id, [c, d]) == Enter(Enter(e, id, c), id, d)
  {
    assert [c, d][..1] == [c];
    EnterOne(e, id, c);
  }

  lemma AnswerLone(b: Book, d: Digest)
    ensures AnswerAll(b, [d]) == Answer(b, d)
  {
    assert [d][..0] == [];
  }

  lemma DecrementSnoc(c: Counts, ids: seq<int>, id: int)
    ensures DecrementAll(c, ids + [id]) == Decrement(DecrementAll(c, ids), id)
  {
    assert (ids + [id])[..|ids|] == ids;
  }

  lemma DecrementTwo(c: Counts, i: int, j: int)
    ensures DecrementAll(c, [i, j]) == Decrement(Decrement(c, i), j)
  {
    assert [i, j] == ([] + [i]) + [j];
    DecrementSnoc(c, [], i);
    DecrementSnoc(c, [] + [i], j);
  }
}
