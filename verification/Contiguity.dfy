/** Commit requests, rounds and cleanups: what holds in every run whose requests are for
    distinct even rounds and wait for the submission before them. */
module Contiguity {
  import opened Types
  import opened Anchors
  import opened Store
  import opened Pipeline
  import E = Elections
  import B = Elector

  ghost function Flying(s: Sys): nat {
    |s.queue| + (if s.phase.Pulling? then 1 else 0) + (if s.cleanup.Some? then 1 else 0)
  }

  /** The submission under way, if any. */
  ghost predicate UnderWay(s: Sys, r: SubmitReq) {
    || r in s.queue
    || (s.phase.Pulling? && s.phase.req == r)
    || (s.cleanup.Some? && s.finished != [] && s.finished[|s.finished| - 1] == r)
  }

  /** Requests are for distinct even rounds and none is handled while a submission is under way. */
  ghost predicate Disciplined(u: Graph, s: Sys, seen: set<int>, es: seq<Event>)
    decreases |es|
  {
    es == [] || (
      && Enabled(u, s, es[0])
      && (es[0].Request? ==>
            Flying(s) == 0 && es[0].commit.round % 2 == 0 && es[0].commit.round >= 0 && es[0].commit.round !in seen)
      && Disciplined(u, Apply(u, s, es[0]), Noticed(seen, es[0]), es[1..]))
  }

  ghost function Noticed(seen: set<int>, e: Event): set<int> {
    if e.Request? then seen + {e.commit.round} else seen
  }

  ghost predicate Contiguous(s: Sys, seen: set<int>) {
    var st := s.store;
    && st.commitMark >= -2 && st.commitMark % 2 == 0
    && (forall r :: r in st.uncommitted ==> r > st.commitMark && r % 2 == 0)
    && (forall r :: r in seen <==> (0 <= r <= st.commitMark && r % 2 == 0) || r in st.uncommitted)
    && (st.pendingCommit.Some? ==>
          st.pendingCommit.value.round in st.uncommitted || st.pendingCommit.value.round == st.commitMark)
    && Flying(s) <= 1
    && (s.cleanup.Some? ==> s.finished != [])
    && (forall r :: UnderWay(s, r) ==> Awaited(st, r))
  }

  ghost predicate Awaited(st: Store, r: SubmitReq) {
    && st.pendingCommit.Some? && st.pendingCommit.value.round == r.round
    && r.round in st.uncommitted && Ready(st, r.round)
  }

  lemma EvenGap(a: int, b: int)
    requires a % 2 == 0 && b % 2 == 0 && a > b
    ensures a >= b + 2 && (a - b) % 2 == 0
  {}

  lemma RequestContiguous(u: Graph, s: Sys, seen: set<int>, c: CommitReq)
    requires Contiguous(s, seen) && Enabled(u, s, Request(c)) && Flying(s) == 0
    requires c.round % 2 == 0 && c.round >= 0 && c.round !in seen
    ensures Contiguous(Apply(u, s, Request(c)), seen + {c.round})
  {
    var s' := Apply(u, s, Request(c));
    assert c.round > s.store.commitMark;
    var st1 := Noted(s.store, c);
    assert st1.pendingCommit.value.round in st1.uncommitted;
    forall r | UnderWay(s', r) ensures Awaited(s'.store, r) {
      assert SubmissionOf(s.store, c) == Some(r);
    }
  }

  lemma CleanContiguous(u: Graph, s: Sys, seen: set<int>)
    requires Contiguous(s, seen) && Enabled(u, s, Clean)
    ensures Contiguous(Apply(u, s, Clean), seen)
  {
    var r := s.finished[|s.finished| - 1];
    var s' := Apply(u, s, Clean);
    assert UnderWay(s, r);
    assert s'.queue == [] && s'.phase.Idle? && s'.cleanup.None?;
    assert forall x :: !UnderWay(s', x);
    CleanStore(s.store, seen, r, s.cleanup.value);
  }

  /** The rounds retired by a cleanup are the even ones up to the submitted round, all of
      which had been requested. */
  lemma CleanStore(st: Store, seen: set<int>, r: SubmitReq, wm: Marks)
    requires st.commitMark >= -2 && st.commitMark % 2 == 0 && Awaited(st, r)
    requires forall x :: x in st.uncommitted ==> x > st.commitMark && x % 2 == 0
    requires forall x :: x in seen <==> (0 <= x <= st.commitMark && x % 2 == 0) || x in st.uncommitted
    ensures var st' := AfterClean(st, wm);
      && st'.commitMark == r.round > st.commitMark && r.round % 2 == 0
      && (forall x :: x in st'.uncommitted ==> x > st'.commitMark && x % 2 == 0)
      && (forall x :: x in seen <==> (0 <= x <= st'.commitMark && x % 2 == 0) || x in st'.uncommitted)
  {
    forall x | st.commitMark < x <= r.round && x % 2 == 0 ensures x in st.uncommitted {
      EvenGap(x, st.commitMark);
    }
  }

  lemma StepContiguous(u: Graph, s: Sys, seen: set<int>, e: Event)
    requires Contiguous(s, seen) && Enabled(u, s, e) && !e.Request? && !e.Clean?
    ensures Contiguous(Apply(u, s, e), seen)
  {
    var s' := Apply(u, s, e);
    StepLeaves(u, s, e);
    hide Awaited, UnderWay, Apply;
    forall r | UnderWay(s', r) ensures Awaited(s'.store, r) {
      assert UnderWay(s, r);
      AwaitedSame(s.store, s'.store, r);
    }
  }

  /** Steps other than requests and cleanups leave the commit state alone and start nothing. */
  lemma StepLeaves(u: Graph, s: Sys, e: Event)
    requires Enabled(u, s, e) && !e.Request? && !e.Clean? && Flying(s) <= 1 && (s.cleanup.Some? ==> s.finished != [])
    ensures var s' := Apply(u, s, e);
      && s'.store.pendingCommit == s.store.pendingCommit && s'.store.uncommitted == s.store.uncommitted
      && s'.store.commitMark == s.store.commitMark
      && Flying(s') <= 1 && (s'.cleanup.Some? ==> s'.finished != [])
      && forall r :: UnderWay(s', r) ==> UnderWay(s, r)
  {}

  lemma AwaitedSame(st: Store, st': Store, r: SubmitReq)
    requires Awaited(st, r)
    requires st'.pendingCommit == st.pendingCommit && st'.uncommitted == st.uncommitted && st'.commitMark == st.commitMark
    ensures Awaited(st', r)
  {}

  lemma NextContiguous(u: Graph, s: Sys, seen: set<int>, e: Event)
    requires Contiguous(s, seen) && Enabled(u, s, e)
    requires e.Request? ==> Flying(s) == 0 && e.commit.round % 2 == 0 && e.commit.round >= 0 && e.commit.round !in seen
    ensures Contiguous(Apply(u, s, e), Noticed(seen, e))
  {
    hide Contiguous, Apply, Enabled;
    match e
    case Request(c) => RequestContiguous(u, s, seen, c);
    case Clean => CleanContiguous(u, s, seen);
    case _ => StepContiguous(u, s, seen, e);
  }

  lemma {:induction false} ContiguousRun(u: Graph, s: Sys, seen: set<int>, es: seq<Event>) returns (seen': set<int>)
    requires Contiguous(s, seen) && Disciplined(u, s, seen, es)
    ensures Runs(u, s, es) && Contiguous(After(u, s, es), seen')
    decreases |es|
  {
    seen' := seen;
    if es == [] {
    } else {
      NextContiguous(u, s, seen, es[0]);
      seen' := ContiguousRun(u, Apply(u, s, es[0]), Noticed(seen, es[0]), es[1..]);
    }
  }

  /** Leader contiguity, in every state reached under the discipline: `commitMark` is even and
      only even rounds above it await a commit; a submission under way has a known leader for
      every even round from `commitMark + 2` to its own; and a cleanup finds
      its own submission pending, above `commitMark`, so handling it cannot crash and raises
      `commitMark` strictly, to exactly the submitted round. */
  lemma LeaderContiguity(u: Graph, m0: Marks, es: seq<Event>)
    requires Keyed(u) && Disciplined(u, Init(m0), {}, es)
    ensures Runs(u, Init(m0), es)
    ensures var s := After(u, Init(m0), es);
      && s.store.commitMark % 2 == 0
      && (forall r :: r in s.store.uncommitted ==> r % 2 == 0 && r > s.store.commitMark)
      && (forall r, x :: UnderWay(s, r) && s.store.commitMark < x <= r.round && x % 2 == 0 ==> x in s.store.uncommitted)
      && (s.cleanup.Some? ==>
            && Enabled(u, s, Clean) && s.finished != []
            && var r := s.finished[|s.finished| - 1].round;
               Apply(u, s, Clean).store.commitMark == r && r > s.store.commitMark)
  {
    var seen := ContiguousRun(u, Init(m0), {}, es);
    var s := After(u, Init(m0), es);
    InvInit(u, m0);
    InvRun(u, m0, Init(m0), es);
    assert Inv(u, m0, s);
    ContiguousMeans(u, s, seen);
  }

  lemma ContiguousMeans(u: Graph, s: Sys, seen: set<int>)
    requires Contiguous(s, seen) && !s.stuck
    ensures forall r, x :: UnderWay(s, r) && s.store.commitMark < x <= r.round && x % 2 == 0 ==> x in s.store.uncommitted
    ensures s.cleanup.Some? ==>
      && Enabled(u, s, Clean) && s.finished != []
      && var r := s.finished[|s.finished| - 1].round;
         Apply(u, s, Clean).store.commitMark == r && r > s.store.commitMark
  {
    if s.cleanup.Some? {
      assert UnderWay(s, s.finished[|s.finished| - 1]);
    }
    forall r, x | UnderWay(s, r) && s.store.commitMark < x <= r.round && x % 2 == 0 ensures x in s.store.uncommitted {
      EvenGap(x, s.store.commitMark);
    }
  }

  // ---- the submitted round is the highest known ----

  /** The submission is for the highest round whose leader was known when it was made. */
  ghost predicate Highest(r: SubmitReq) {
    r.round in r.uncommitted && forall x :: x in r.uncommitted ==> x <= r.round
  }

  /** No known leader's round is above the pending commit; with none pending, every even round up
      to any known leader's is known. */
  ghost predicate Topped(st: Store) {
    forall x :: x in st.uncommitted ==>
      if st.pendingCommit.Some? then x <= st.pendingCommit.value.round else Ready(st, x)
  }

  ghost predicate AllHighest(s: Sys) {
    Topped(s.store) && forall r :: r in Line(s) ==> Highest(r)
  }

  lemma ToppedRequest(s: Sys, seen: set<int>, c: CommitReq)
    requires Contiguous(s, seen) && Topped(s.store) && c.round % 2 == 0 && c.round >= 0 && c.round !in seen
    ensures Topped(AfterRequest(s.store, c))
    ensures SubmissionOf(s.store, c).Some? ==> Highest(SubmissionOf(s.store, c).value)
  {
    var st, st1 := s.store, Noted(s.store, c);
    var pc := st1.pendingCommit.value;
    EvenGap(c.round, st.commitMark);
    forall x | x in st1.uncommitted ensures x <= pc.round {
      assert st.pendingCommit.None? && x in st.uncommitted && x > c.round ==> c.round in st.uncommitted;
    }
    assert pc.round in st1.uncommitted;
    RequestOutcome(st, c, st1);
    hide AfterRequest, SubmissionOf, Top;
    assert forall x :: x in st1.uncommitted && Ready(st1, pc.round) ==> Ready(st1, x);
  }

  lemma HighestStep(u: Graph, s: Sys, seen: set<int>, e: Event)
    requires Contiguous(s, seen) && AllHighest(s) && Enabled(u, s, e)
    requires e.Request? ==> Flying(s) == 0 && e.commit.round % 2 == 0 && e.commit.round >= 0 && e.commit.round !in seen
    ensures AllHighest(Apply(u, s, e))
  {
    hide Contiguous, Line, Highest, Ready;
    LineStep(u, s, e);
    if e.Request? {
      ToppedRequest(s, seen, e.commit);
    } else {
      ToppedElse(u, s, e);
    }
  }

  lemma ToppedElse(u: Graph, s: Sys, e: Event)
    requires Topped(s.store) && Enabled(u, s, e) && !e.Request?
    ensures Topped(Apply(u, s, e).store)
  {
    hide SubmissionOf, AfterRequest, RaiseAnchor;
    var st, st' := s.store, Apply(u, s, e).store;
    assert forall x :: x in st'.uncommitted ==> x in st.uncommitted;
    assert st'.pendingCommit == st.pendingCommit;
    if !e.Clean? {
      assert st'.uncommitted == st.uncommitted && st'.commitMark == st.commitMark;
    }
  }

  lemma {:induction false} HighestRun(u: Graph, s: Sys, seen: set<int>, es: seq<Event>)
    requires Contiguous(s, seen) && AllHighest(s) && Disciplined(u, s, seen, es)
    ensures Runs(u, s, es) && AllHighest(After(u, s, es))
    decreases |es|
  {
    hide Contiguous, AllHighest, Apply, Enabled, Flying;
    if es == [] {
    } else {
      HighestStep(u, s, seen, es[0]);
      NextContiguous(u, s, seen, es[0]);
      HighestRun(u, Apply(u, s, es[0]), Noticed(seen, es[0]), es[1..]);
    }
  }

  /** In every disciplined run each submission made is for the highest round whose leader is known
      at that moment, so a request for a lower round never takes the place of a pending commit. */
  lemma HighestSubmitted(u: Graph, m0: Marks, es: seq<Event>, r: SubmitReq)
    requires Disciplined(u, Init(m0), {}, es)
    ensures Runs(u, Init(m0), es)
    ensures r in Submissions(u, Init(m0), es) ==>
      r.round in r.uncommitted && forall x :: x in r.uncommitted ==> x <= r.round
  {
    HighestRun(u, Init(m0), {}, es);
    SubmissionsInOrder(u, m0, es);
  }

  // ---- why the discipline is needed ----

  /** A fresh request is always above a submission under way, since all even rounds up to that
      submission were already requested. */
  lemma FreshIsHigher(s: Sys, seen: set<int>, r: SubmitReq, c: CommitReq)
    requires Contiguous(s, seen) && UnderWay(s, r)
    requires c.round % 2 == 0 && c.round >= 0 && c.round !in seen
    ensures c.round > r.round
  {
    hide Flying;
    assert Awaited(s.store, r);
    assert c.round > s.store.commitMark;
    EvenGap(c.round, s.store.commitMark);
  }

  ghost predicate NoRequest(es: seq<Event>) {
    forall i :: 0 <= i < |es| ==> !es[i].Request?
  }

  ghost predicate PendingIs(s: Sys, round: int) {
    s.store.pendingCommit.Some? && s.store.pendingCommit.value.round == round
  }

  ghost predicate PendingFrom(s: Sys, round: int) {
    s.store.pendingCommit.Some? ==> s.store.pendingCommit.value.round >= round
  }

  lemma PendingStep(u: Graph, s: Sys, round: int, e: Event)
    requires Enabled(u, s, e) && PendingFrom(s, round) && (e.Request? ==> e.commit.round > round)
    ensures PendingFrom(Apply(u, s, e), round)
    ensures PendingIs(Apply(u, s, e), round) <==> PendingIs(s, round) && !e.Request?
  {}

  lemma {:induction false} PendingRun(u: Graph, s: Sys, round: int, es: seq<Event>)
    requires Runs(u, s, es) && PendingFrom(s, round)
    requires forall i :: 0 <= i < |es| && es[i].Request? ==> es[i].commit.round > round
    ensures PendingIs(After(u, s, es), round) <==> PendingIs(s, round) && NoRequest(es)
    decreases |es|
  {
    if es == [] {
    } else {
      PendingStep(u, s, round, es[0]);
      hide Apply, Enabled, PendingIs, PendingFrom;
      PendingRun(u, Apply(u, s, es[0]), round, es[1..]);
      assert NoRequest(es) <==> !es[0].Request? && NoRequest(es[1..]) by {
        assert forall i :: 0 <= i < |es[1..]| ==> es[1..][i] == es[i + 1];
      }
    }
  }

  ghost predicate FreshRounds(seen: set<int>, es: seq<Event>) {
    forall i :: 0 <= i < |es| && es[i].Request? ==>
      es[i].commit.round % 2 == 0 && es[i].commit.round >= 0 && es[i].commit.round !in seen
  }

  /** The cleanup of a submission takes the round it retires from the pending commit. In every
      run from a state in which a submission is under way, with any interleaving of pushes,
      pulls, cleanups and requests for even rounds not requested before, the pending commit is
      still that submission's if and only if no request was handled in between. */
  lemma CleanupFindsItsOwn(u: Graph, s: Sys, seen: set<int>, r: SubmitReq, es: seq<Event>)
    requires Contiguous(s, seen) && UnderWay(s, r)
    requires Runs(u, s, es) && FreshRounds(seen, es)
    ensures PendingIs(After(u, s, es), r.round) <==> NoRequest(es)
  {
    assert Awaited(s.store, r);
    forall i | 0 <= i < |es| && es[i].Request? ensures es[i].commit.round > r.round {
      FreshIsHigher(s, seen, r, es[i].commit);
    }
    PendingRun(u, s, r.round, es);
  }

  // ---- where distinct even rounds come from ----

  /** No request is handled while a submission is under way. */
  ghost predicate Unhurried(u: Graph, s: Sys, es: seq<Event>)
    decreases |es|
  {
    es == [] || (
      && Enabled(u, s, es[0]) && (es[0].Request? ==> Flying(s) == 0)
      && Unhurried(u, Apply(u, s, es[0]), es[1..]))
  }

  ghost function RequestsIn(es: seq<Event>): seq<CommitReq> {
    if es == [] then []
    else (if es[0].Request? then [es[0].commit] else []) + RequestsIn(es[1..])
  }

  ghost predicate DistinctEven(seen: set<int>, cs: seq<CommitReq>) {
    && (forall i :: 0 <= i < |cs| ==> cs[i].round % 2 == 0 && cs[i].round >= 0 && cs[i].round !in seen)
    && (forall i, j :: 0 <= i < j < |cs| ==> cs[i].round != cs[j].round)
  }

  lemma {:induction false} UnhurriedDisciplined(u: Graph, s: Sys, seen: set<int>, es: seq<Event>)
    requires Unhurried(u, s, es) && DistinctEven(seen, RequestsIn(es))
    ensures Disciplined(u, s, seen, es)
    decreases |es|
  {
    hide Apply, Enabled, Flying;
    if es == [] {
    } else {
      var cs, rest := RequestsIn(es), RequestsIn(es[1..]);
      if es[0].Request? {
        assert cs[0] == es[0].commit && cs[1..] == rest;
      } else {
        assert cs == rest;
      }
      UnhurriedDisciplined(u, Apply(u, s, es[0]), Noticed(seen, es[0]), es[1..]);
    }
  }

  /** The discipline, from the election. If fewer than a threshold of members elect anything but
      even rounds, and the dag handles the elector's announcements in the order they were made,
      each only once nothing is under way, then its run is disciplined. */
  lemma ElectedDiscipline(u: Graph, m0: Marks, n: nat, votes: seq<B.Elect>, bad: set<NodeID>, es: seq<Event>)
    requires n >= 1 && n !in {2, 3, 6} && E.Proper(n, votes) && E.MostlyEven(n, votes, bad)
    requires RequestsIn(es) <= E.Announcements(B.Ballot(map[], map[]), n, votes)
    requires Unhurried(u, Init(m0), es)
    ensures Disciplined(u, Init(m0), {}, es)
  {
    E.DistinctEvenRounds(n, votes, bad);
    UnhurriedDisciplined(u, Init(m0), {}, es);
  }
}
