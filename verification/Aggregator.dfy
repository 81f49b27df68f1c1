/** The quorum counter: one message per author, released in bunches of the high threshold. */
module Aggregator {
  import opened Types
  import opened Quorum

  /** `used` never shrinks; `items` are the messages not yet consumed by a take. */
  datatype Votes<M> = Votes(used: set<NodeID>, items: seq<M>)

  function NoVotes<M>(): Votes<M> {
    Votes({}, [])
  }

  function Pushed<M>(v: Votes<M>, author: NodeID, msg: M): Votes<M> {
    if author in v.used then v else Votes(v.used + {author}, v.items + [msg])
  }

  predicate Ripe<M>(v: Votes<M>, n: nat) {
    |v.items| >= HighThreshold(n)
  }

  function Taken<M>(v: Votes<M>, n: nat): Votes<M>
    requires n >= 1 && Ripe(v, n)
  {
    TwoQuorumsFit(n);
    v.(items := v.items[HighThreshold(n)..])
  }

  class Aggregator<M> {
    const n: nat
    var item: seq<M>
    var used: set<NodeID>

    ghost function State(): Votes<M>
      reads this
    {
      Votes(used, item)
    }

    constructor (n: nat)
      ensures this.n == n && State() == NoVotes()
    {
      this.n := n;
      item := [];
      used := {};
    }

    method Push(author: NodeID, msg: M)
      modifies this
      ensures State() == Pushed(old(State()), author, msg)
    {
      if author in used {
        return;
      }
      used := used + {author};
      item := item + [msg];
    }

    /** Hands out everything collected so far, but consumes only a threshold of it. */
    method Take() returns (res: Option<seq<M>>)
      requires n >= 1
      modifies this
      ensures if Ripe(old(State()), n)
              then State() == Taken(old(State()), n) && res == Some(old(item))
              else State() == old(State()) && res == None
    {
      TwoQuorumsFit(n);
      var thld := HighThreshold(n);
      if |item| >= thld {
        res := Some(item);
        item := item[thld..];
      } else {
        res := None;
      }
    }
  }

  /** Counts one message and takes at once, as both users of the counter do. */
  method PushAndTake<M>(a: Aggregator<M>, author: NodeID, msg: M) returns (quorum: bool)
    requires a.n >= 1
    modifies a
    ensures quorum == Ripe(Pushed(old(a.State()), author, msg), a.n)
    ensures a.State() == Counted(old(a.State()), a.n, author, msg)
  {
    a.Push(author, msg);
    var res := a.Take();
    quorum := res.Some?;
  }

  function Counted<M>(v: Votes<M>, n: nat, author: NodeID, msg: M): Votes<M>
    requires n >= 1
  {
    var v' := Pushed(v, author, msg);
    if Ripe(v', n) then Taken(v', n) else v'
  }

  // ---- one counter per key: per round in the elector, per height in the core ----

  type Tally = map<int, Votes<NodeID>>

  function TallyAt(t: Tally, key: int): Votes<NodeID> {
    if key in t then t[key] else NoVotes()
  }

  /** Counters of one committee, no two of them the same object. */
  ghost predicate Separate(n: nat, ag: map<int, Aggregator<NodeID>>) {
    && (forall k :: k in ag ==> ag[k].n == n)
    && (forall k, l :: k in ag && l in ag && k != l ==> ag[k] != ag[l])
  }

  ghost function TallyOf(ag: map<int, Aggregator<NodeID>>): Tally
    reads ag.Values
  {
    map k | k in ag :: ag[k].State()
  }

  /** Counts one vote under its key, creating the counter on first use. */
  method Count(n: nat, ag: map<int, Aggregator<NodeID>>, key: int, author: NodeID)
    returns (next: map<int, Aggregator<NodeID>>, quorum: bool)
    requires n >= 1 && Separate(n, ag)
    modifies ag.Values
    ensures Separate(n, next) && fresh(next.Values - ag.Values)
    ensures quorum == Ripe(Pushed(TallyAt(old(TallyOf(ag)), key), author, author), n)
    ensures TallyOf(next) == old(TallyOf(ag))[key := Counted(TallyAt(old(TallyOf(ag)), key), n, author, author)]
  {
    hide Counted, Ripe, Pushed;
    next := ag;
    if key !in ag {
      var a := new Aggregator<NodeID>(n);
      next := ag[key := a];
      assert next.Values <= ag.Values + {a};
    }
    ghost var mid := TallyOf(next);
    assert mid[key] == TallyAt(old(TallyOf(ag)), key);
    quorum := PushAndTake(next[key], author, author);
    assert forall k :: k in next && k != key ==> next[k].State() == mid[k];
  }

  // ---- how often a take can succeed ----

  datatype Op<M> = PushOp(author: NodeID, msg: M) | TakeOp

  ghost function Step<M>(v: Votes<M>, n: nat, op: Op<M>): Votes<M>
    requires n >= 1
  {
    match op
    case PushOp(a, m) => Pushed(v, a, m)
    case TakeOp => if Ripe(v, n) then Taken(v, n) else v
  }

  ghost function Run<M>(v: Votes<M>, n: nat, ops: seq<Op<M>>): Votes<M>
    requires n >= 1
    decreases |ops|
  {
    if ops == [] then v else Run(Step(v, n, ops[0]), n, ops[1..])
  }

  ghost function Takes<M>(v: Votes<M>, n: nat, ops: seq<Op<M>>): nat
    requires n >= 1
    decreases |ops|
  {
    if ops == [] then 0
    else (if ops[0].TakeOp? && Ripe(v, n) then 1 else 0) + Takes(Step(v, n, ops[0]), n, ops[1..])
  }

  ghost predicate FromCommittee<M>(n: nat, ops: seq<Op<M>>) {
    forall i :: 0 <= i < |ops| && ops[i].PushOp? ==> ops[i].author in Committee(n)
  }

  // ---- what the takes hand out ----

  datatype Vote<M> = Vote(author: NodeID, msg: M)

  /** The votes that count, oldest first: the first push of each author not seen before. */
  ghost function Firsts<M>(used: set<NodeID>, ops: seq<Op<M>>): seq<Vote<M>>
    decreases |ops|
  {
    if ops == [] then []
    else if ops[0].PushOp? && ops[0].author !in used
      then [Vote(ops[0].author, ops[0].msg)] + Firsts(used + {ops[0].author}, ops[1..])
    else Firsts(used, ops[1..])
  }

  ghost function Authors<M>(fs: seq<Vote<M>>): (xs: seq<NodeID>)
    ensures |xs| == |fs|
  {
    if fs == [] then [] else [fs[0].author] + Authors(fs[1..])
  }

  ghost function Messages<M>(fs: seq<Vote<M>>): (ms: seq<M>)
    ensures |ms| == |fs|
  {
    if fs == [] then [] else [fs[0].msg] + Messages(fs[1..])
  }

  /** The messages each successful take consumed, one batch per take. */
  ghost function TakenBatches<M>(v: Votes<M>, n: nat, ops: seq<Op<M>>): (bs: seq<seq<M>>)
    requires n >= 1
    ensures |bs| == Takes(v, n, ops)
    ensures forall i :: 0 <= i < |bs| ==> |bs[i]| == HighThreshold(n)
    decreases |ops|
  {
    TwoQuorumsFit(n);
    if ops == [] then []
    else (if ops[0].TakeOp? && Ripe(v, n) then [v.items[..HighThreshold(n)]] else [])
         + TakenBatches(Step(v, n, ops[0]), n, ops[1..])
  }

  ghost function Flat<M>(bs: seq<seq<M>>): seq<M> {
    if bs == [] then [] else bs[0] + Flat(bs[1..])
  }

  /** Counted authors are new and pairwise different. */
  lemma {:induction false} FirstsOnce<M>(used: set<NodeID>, ops: seq<Op<M>>)
    ensures NoDup(Authors(Firsts(used, ops))) && Elems(Authors(Firsts(used, ops))) !! used
    decreases |ops|
  {
    if ops == [] {
    } else if ops[0].PushOp? && ops[0].author !in used {
      var rest := Firsts(used + {ops[0].author}, ops[1..]);
      FirstsOnce(used + {ops[0].author}, ops[1..]);
      FirstFirst(used, ops);
      NoDupConcat([ops[0].author], Authors(rest));
      ElemsConcat([ops[0].author], Authors(rest));
    } else {
      FirstsOnce(used, ops[1..]);
    }
  }

  /** What one operation releases, and what it adds. */
  ghost function Released<M>(v: Votes<M>, n: nat, op: Op<M>): seq<M>
    requires n >= 1
  {
    TwoQuorumsFit(n);
    if op.TakeOp? && Ripe(v, n) then v.items[..HighThreshold(n)] else []
  }

  ghost function Added<M>(v: Votes<M>, op: Op<M>): seq<M> {
    if op.PushOp? && op.author !in v.used then [op.msg] else []
  }

  /** Conservation, in order: the batches the takes consumed, followed by what still waits, are
      what waited at first, followed by the first message of each new author as it came in. */
  lemma {:induction false} TakesConserve<M>(v: Votes<M>, n: nat, ops: seq<Op<M>>)
    requires n >= 1
    ensures Flat(TakenBatches(v, n, ops)) + Run(v, n, ops).items == v.items + Messages(Firsts(v.used, ops))
    decreases |ops|
  {
    if ops == [] {
      assert Run(v, n, ops) == v && Flat(TakenBatches(v, n, ops)) == [];
    } else {
      var w, rest := Step(v, n, ops[0]), ops[1..];
      TakesConserve(w, n, rest);
      ReleasedFirst(v, n, ops);
      AddedFirst(v, n, ops);
      StepConserves(v, n, ops[0]);
      Weave(Released(v, n, ops[0]), Flat(TakenBatches(w, n, rest)), Run(w, n, rest).items, v.items,
            Added(v, ops[0]), Messages(Firsts(w.used, rest)), w.items);
    }
  }

  lemma ReleasedFirst<M>(v: Votes<M>, n: nat, ops: seq<Op<M>>)
    requires n >= 1 && ops != []
    ensures Flat(TakenBatches(v, n, ops)) == Released(v, n, ops[0]) + Flat(TakenBatches(Step(v, n, ops[0]), n, ops[1..]))
  {
    var rest := TakenBatches(Step(v, n, ops[0]), n, ops[1..]);
    if ops[0].TakeOp? && Ripe(v, n) {
      assert TakenBatches(v, n, ops)[1..] == rest;
    } else {
      assert TakenBatches(v, n, ops) == rest;
    }
  }

  lemma AddedFirst<M>(v: Votes<M>, n: nat, ops: seq<Op<M>>)
    requires n >= 1 && ops != []
    ensures Messages(Firsts(v.used, ops)) == Added(v, ops[0]) + Messages(Firsts(Step(v, n, ops[0]).used, ops[1..]))
  {
    if ops[0].PushOp? && ops[0].author !in v.used {
      FirstFirst(v.used, ops);
    } else {
      assert Step(v, n, ops[0]).used == v.used;
    }
  }

  lemma StepConserves<M>(v: Votes<M>, n: nat, op: Op<M>)
    requires n >= 1
    ensures v.items + Added(v, op) == Released(v, n, op) + Step(v, n, op).items
  {}

  lemma Weave<M>(pre: seq<M>, a: seq<M>, b: seq<M>, c: seq<M>, d: seq<M>, e: seq<M>, w: seq<M>)
    requires a + b == w + e && c + d == pre + w
    ensures (pre + a) + b == c + (d + e)
  {
    assert (pre + a) + b == pre + (a + b);
    assert pre + (w + e) == (pre + w) + e;
    assert (c + d) + e == c + (d + e);
  }

  lemma FirstFirst<M>(used: set<NodeID>, ops: seq<Op<M>>)
    requires ops != [] && ops[0].PushOp? && ops[0].author !in used
    ensures var rest := Firsts(used + {ops[0].author}, ops[1..]);
            && Messages(Firsts(used, ops)) == [ops[0].msg] + Messages(rest)
            && Authors(Firsts(used, ops)) == [ops[0].author] + Authors(rest)
  {
    assert Firsts(used, ops)[1..] == Firsts(used + {ops[0].author}, ops[1..]);
  }

  lemma {:induction false} UsedByFirsts<M>(v: Votes<M>, n: nat, ops: seq<Op<M>>)
    requires n >= 1
    ensures Run(v, n, ops).used == v.used + Elems(Authors(Firsts(v.used, ops)))
    decreases |ops|
  {
    if ops == [] {
    } else {
      UsedByFirsts(Step(v, n, ops[0]), n, ops[1..]);
      if ops[0].PushOp? && ops[0].author !in v.used {
        FirstFirst(v.used, ops);
        ElemsConcat([ops[0].author], Authors(Firsts(v.used + {ops[0].author}, ops[1..])));
      }
    }
  }

  lemma {:induction false} FlatSize<M>(bs: seq<seq<M>>, t: int)
    requires forall i :: 0 <= i < |bs| ==> |bs[i]| == t
    ensures |Flat(bs)| == t * |bs|
  {
    if bs == [] {
    } else {
      FlatSize(bs[1..], t);
      TimesSucc(t, |bs| - 1, |bs|);
    }
  }

  lemma {:induction false} UsedFromCommittee<M>(v: Votes<M>, n: nat, ops: seq<Op<M>>)
    requires n >= 1 && FromCommittee(n, ops) && v.used <= Committee(n)
    ensures Run(v, n, ops).used <= Committee(n)
    decreases |ops|
  {
    if ops == [] {
    } else {
      assert ops[0].PushOp? ==> ops[0].author in Committee(n);
      UsedFromCommittee(Step(v, n, ops[0]), n, ops[1..]);
    }
  }

  /** Take bound: successful takes consume disjoint quorums of one committee. */
  lemma TakeBound<M>(n: nat, ops: seq<Op<M>>)
    requires n >= 1 && FromCommittee(n, ops)
    ensures HighThreshold(n) * Takes(NoVotes(), n, ops) <= n
    ensures n !in {2, 3, 6} ==> Takes(NoVotes(), n, ops) <= 1
  {
    var v: Votes<M> := NoVotes();
    var authors := Authors(Firsts({}, ops));
    TakesConserve(v, n, ops);
    UsedByFirsts(v, n, ops);
    UsedFromCommittee(v, n, ops);
    FirstsOnce({}, ops);
    NoDupSize(authors);
    MembersBound(Elems(authors), n);
    FlatSize(TakenBatches(v, n, ops), HighThreshold(n));
    TwoQuorumsFit(n);
    TwiceFits(HighThreshold(n), Takes(v, n, ops), n);
  }

  lemma TwiceFits(t: int, k: nat, n: int)
    requires t >= 0 && t * k <= n
    ensures k >= 2 ==> 2 * t <= n
  {
    if k >= 2 {
      assert t * k == t * 2 + t * (k - 2);
    }
  }

  /** How many operations come before the first take that succeeds. */
  ghost function FirstTake<M>(v: Votes<M>, n: nat, ops: seq<Op<M>>): (k: nat)
    requires n >= 1 && Takes(v, n, ops) >= 1
    ensures k < |ops|
    decreases |ops|
  {
    if ops[0].TakeOp? && Ripe(v, n) then 0 else 1 + FirstTake(Step(v, n, ops[0]), n, ops[1..])
  }

  /** The first successful take returns everything that waited at first and the first message of
      each author counted before it. */
  lemma {:induction false} FirstTakeReturns<M>(v: Votes<M>, n: nat, ops: seq<Op<M>>)
    requires n >= 1 && Takes(v, n, ops) >= 1
    ensures var k := FirstTake(v, n, ops);
            && ops[k].TakeOp? && Ripe(Run(v, n, ops[..k]), n)
            && Run(v, n, ops[..k]).items == v.items + Messages(Firsts(v.used, ops[..k]))
  {
    var k := FirstTake(v, n, ops);
    NoTakeBefore(v, n, ops);
    TakesConserve(v, n, ops[..k]);
  }

  lemma {:induction false} NoTakeBefore<M>(v: Votes<M>, n: nat, ops: seq<Op<M>>)
    requires n >= 1 && Takes(v, n, ops) >= 1
    ensures var k := FirstTake(v, n, ops);
            ops[k].TakeOp? && Ripe(Run(v, n, ops[..k]), n) && Takes(v, n, ops[..k]) == 0
    decreases |ops|
  {
    if ops[0].TakeOp? && Ripe(v, n) {
      assert ops[..0] == [];
    } else {
      var k := FirstTake(v, n, ops);
      NoTakeBefore(Step(v, n, ops[0]), n, ops[1..]);
      assert ops[..k][1..] == ops[1..][..k - 1];
    }
  }

  /** Whatever two counters of one committee return at their first successful takes, the authors
      of the two returned batches overlap in at least `2 * HighThreshold(n) - n` members. */
  lemma TakesOverlap<M>(n: nat, xs: seq<Op<M>>, ys: seq<Op<M>>)
    requires n >= 1 && FromCommittee(n, xs) && FromCommittee(n, ys)
    requires Takes(NoVotes(), n, xs) >= 1 && Takes(NoVotes(), n, ys) >= 1
    ensures var xs' := xs[..FirstTake(NoVotes(), n, xs)];
            var ys' := ys[..FirstTake(NoVotes(), n, ys)];
            && Run(NoVotes(), n, xs').items == Messages(Firsts({}, xs'))
            && Run(NoVotes(), n, ys').items == Messages(Firsts({}, ys'))
            && |Elems(Authors(Firsts({}, xs'))) * Elems(Authors(Firsts({}, ys')))| >= 2 * HighThreshold(n) - n
  {
    var a := ReturnedQuorum(n, xs);
    var b := ReturnedQuorum(n, ys);
    QuorumOverlap(n, a, b);
  }

  /** The authors of what the first successful take returns: a quorum of the committee. */
  lemma ReturnedQuorum<M>(n: nat, ops: seq<Op<M>>) returns (authors: set<NodeID>)
    requires n >= 1 && FromCommittee(n, ops) && Takes(NoVotes(), n, ops) >= 1
    ensures var pre := ops[..FirstTake(NoVotes(), n, ops)];
            authors == Elems(Authors(Firsts({}, pre))) && Run(NoVotes(), n, pre).items == Messages(Firsts({}, pre))
    ensures authors <= Committee(n) && |authors| >= HighThreshold(n)
  {
    var v: Votes<M> := NoVotes();
    var pre := ops[..FirstTake(v, n, ops)];
    FirstTakeReturns(v, n, ops);
    UsedByFirsts(v, n, pre);
    UsedFromCommittee(v, n, pre);
    FirstsOnce({}, pre);
    authors := Elems(Authors(Firsts({}, pre)));
    NoDupSize(Authors(Firsts({}, pre)));
  }

  // ---- the bound is reached ----

  ghost function Fill(k: nat): (ops: seq<Op<NodeID>>)
    ensures |ops| == k && forall i :: 0 <= i < k ==> ops[i] == PushOp(i, i)
  {
    if k == 0 then [] else Fill(k - 1) + [PushOp(k - 1, k - 1)]
  }

  lemma {:induction false} RunAppend<M>(v: Votes<M>, n: nat, xs: seq<Op<M>>, ys: seq<Op<M>>)
    requires n >= 1
    ensures Run(v, n, xs + ys) == Run(Run(v, n, xs), n, ys)
    ensures Takes(v, n, xs + ys) == Takes(v, n, xs) + Takes(Run(v, n, xs), n, ys)
    decreases |xs|
  {
    if xs == [] {
      assert xs + ys == ys;
    } else {
      RunAppend(Step(v, n, xs[0]), n, xs[1..], ys);
      assert (xs + ys)[1..] == xs[1..] + ys;
    }
  }

  lemma {:induction false} FillRun(n: nat, k: nat)
    requires n >= 1
    ensures var v := Run(NoVotes(), n, Fill(k)); |v.items| == k && v.used == Committee(k)
    ensures Takes(NoVotes(), n, Fill(k)) == 0
  {
    if k == 0 {
    } else {
      FillRun(n, k - 1);
      RunAppend(NoVotes(), n, Fill(k - 1), [PushOp(k - 1, k - 1)]);
    }
  }

  /** So "only take once" holds for a committee of n if and only if n is not 2, 3 or 6. */
  lemma TakeOnceExact(n: nat)
    requires n >= 1
    ensures (forall ops: seq<Op<NodeID>> :: FromCommittee(n, ops) ==> Takes(NoVotes(), n, ops) <= 1)
       <==> n !in {2, 3, 6}
  {
    if n in {2, 3, 6} {
      var twice: seq<Op<NodeID>> := [TakeOp, TakeOp];
      var ops := Fill(n) + twice;
      FillRun(n, n);
      RunAppend(NoVotes(), n, Fill(n), twice);
      TwoQuorumsFit(n);
      var v := Run(NoVotes(), n, Fill(n));
      assert twice[1..] == [TakeOp];
      assert Takes(v, n, twice) == 2;
      assert FromCommittee(n, ops) && Takes(NoVotes(), n, ops) == 2;
    } else {
      forall ops: seq<Op<NodeID>> | FromCommittee(n, ops) ensures Takes(NoVotes(), n, ops) <= 1 {
        TakeBound(n, ops);
      }
    }
  }
}
