/** Progress: a submission whose history has arrived is committed by the commitor's own steps,
    whatever the order of its references, without waiting for anything. */
module Progress {
  import opened Types
  import opened CausalGraph
  import opened Anchors
  import opened Pull
  import opened Batches
  import opened Replay
  import opened Store
  import opened Pipeline

  ghost predicate CommitorOnly(es: seq<Event>) {
    forall i :: 0 <= i < |es| ==> es[i].Start? || es[i].Skip? || es[i].Take? || es[i].Finish?
  }

  /** The whole uncommitted history of `t` has been delivered. */
  ghost predicate Arrived(u: Graph, s: Sys, t: Slot) {
    Complete(u, s.store.mark, t) && Pulled(u, s.store.mark, t).Keys <= s.pushed
  }

  /** A pull under way that will not have to wait. */
  ghost predicate Flowing(u: Graph, s: Sys) {
    && s.phase.Pulling? && s.cleanup.None? && Arrived(u, s, s.phase.req.slot)
    && forall t :: t in s.phase.q ==> t in u || Committed(s.store.mark, t)
  }

  /** `s'` differs from `s` at most in the commitor's own state. */
  ghost predicate DagSame(s: Sys, s': Sys) {
    s'.store == s.store && s'.pushed == s.pushed
  }

  /** The next step of a flowing pull: the head is dropped or taken. */
  lemma NextPull(u: Graph, m0: Marks, s: Sys) returns (e: Event)
    requires Keyed(u) && Inv(u, m0, s) && Flowing(u, s) && s.phase.q != []
    ensures (e.Skip? || e.Take?) && Enabled(u, s, e)
    ensures e.Take? ==> s.phase.q[0] in u.Keys - s.phase.pulled.Keys
  {
    var t, m := s.phase.q[0], s.store.mark;
    assert t in s.phase.q;
    if !Committed(m, t) && t !in s.phase.pulled {
      assert t in Live(u, m) && t in Cone(Live(u, m), s.phase.req.slot);
      assert t in Pulled(u, m, s.phase.req.slot);
      e := Take;
    } else {
      e := Skip;
    }
  }

  lemma PullEffect(u: Graph, s: Sys, e: Event)
    requires (e.Skip? || e.Take?) && Enabled(u, s, e)
    ensures var s' := Apply(u, s, e);
      && DagSame(s, s') && s'.queue == s.queue && s'.finished == s.finished && s'.cleanup == s.cleanup
      && s'.phase.Pulling? && s'.phase.req == s.phase.req
      && s'.phase.pulled.Keys == s.phase.pulled.Keys + (if e.Take? then {s.phase.q[0]} else {})
      && s'.phase.q == s.phase.q[1..] + (if e.Take? then RefSlots(s.store.blocks[s.phase.q[0]]) else [])
  {}

  lemma PullFlows(u: Graph, m0: Marks, s: Sys, e: Event)
    requires Keyed(u) && Inv(u, m0, s) && Flowing(u, s) && (e.Skip? || e.Take?) && Enabled(u, s, e)
    ensures Inv(u, m0, Apply(u, s, e)) && Flowing(u, Apply(u, s, e))
  {
    hide Inv, Pulled, Complete, Apply, Committed, Keyed;
    InvStep(u, m0, s, e);
    PullEffect(u, s, e);
    var q' := Apply(u, s, e).phase.q;
    forall x | x in q' ensures x in u || Committed(s.store.mark, x) {
      if x in s.phase.q[1..] {
        assert x in s.phase.q;
      } else {
        QueuedAnswered(u, m0, s, x);
      }
    }
  }

  lemma QueuedAnswered(u: Graph, m0: Marks, s: Sys, x: Slot)
    requires Keyed(u) && Inv(u, m0, s) && Flowing(u, s) && Enabled(u, s, Take)
    requires x in RefSlots(s.store.blocks[s.phase.q[0]])
    ensures x in u || Committed(s.store.mark, x)
  {
    var t := s.phase.q[0];
    assert t in s.phase.q;
    InRefSlots(u[t], x);
    assert t in Cone(Live(u, s.store.mark), s.phase.req.slot) && Refs(u[t], x);
  }

  lemma {:induction false} PullsFinish(u: Graph, m0: Marks, s: Sys) returns (es: seq<Event>)
    requires Keyed(u) && Inv(u, m0, s) && Flowing(u, s) && s.phase.Pulling?
    ensures Runs(u, s, es) && CommitorOnly(es)
    ensures Inv(u, m0, After(u, s, es)) && Finished(s, s.phase.req, After(u, s, es))
    decreases u.Keys - s.phase.pulled.Keys, |s.phase.q|
  {
    hide Inv, Flowing, Apply, Enabled, Runs, After, Keyed;
    var e, rest := Finish, [];
    if s.phase.q == [] {
      FinishStep(u, m0, s);
      RunNil(u, Apply(u, s, Finish));
    } else {
      e := NextPull(u, m0, s);
      PullFlows(u, m0, s, e);
      PullEffect(u, s, e);
      rest := PullsFinish(u, m0, Apply(u, s, e));
    }
    RunCons(u, s, e, rest);
    es := [e] + rest;
  }

  lemma RunNil(u: Graph, s: Sys)
    ensures Runs(u, s, []) && After(u, s, []) == s
  {}

  /** From `s` to `s'` the commitor finished `r`, and nothing else changed. */
  ghost predicate Finished(s: Sys, r: SubmitReq, s': Sys) {
    DagSame(s, s') && s'.phase.Idle? && s'.queue == s.queue && s'.finished == s.finished + [r]
  }

  lemma NotStuck(u: Graph, m0: Marks, s: Sys)
    requires Keyed(u) && Inv(u, m0, s)
    ensures !s.stuck
  {}

  lemma FinishEffect(u: Graph, s: Sys)
    requires s.phase.Pulling? && s.phase.q == [] && !s.stuck
    ensures Enabled(u, s, Finish) && Finished(s, s.phase.req, Apply(u, s, Finish))
  {}

  lemma FinishStep(u: Graph, m0: Marks, s: Sys)
    requires Keyed(u) && Inv(u, m0, s) && s.phase.Pulling? && s.phase.q == []
    ensures Enabled(u, s, Finish)
    ensures Inv(u, m0, Apply(u, s, Finish)) && Finished(s, s.phase.req, Apply(u, s, Finish))
  {
    hide Inv, Apply, Enabled, Keyed;
    NotStuck(u, m0, s);
    FinishEffect(u, s);
    InvFinish(u, m0, s);
  }

  /** Progress. In every reachable state with an idle commitor and no cleanup under way, the next
      queued submission whose history has arrived is finished by steps of the commitor alone. */
  lemma CommitCompletes(u: Graph, m0: Marks, s: Sys) returns (es: seq<Event>)
    requires Keyed(u) && Inv(u, m0, s)
    requires s.phase.Idle? && s.cleanup.None? && s.queue != [] && Arrived(u, s, s.queue[0].slot)
    ensures Runs(u, s, es) && CommitorOnly(es)
    ensures Inv(u, m0, After(u, s, es))
    ensures Finished(s.(queue := s.queue[1..]), s.queue[0], After(u, s, es))
  {
    hide Inv, Apply, Enabled, Flowing, Arrived, Runs, After, Keyed;
    StartFlows(u, m0, s);
    var rest := PullsFinish(u, m0, Apply(u, s, Start));
    RunCons(u, s, Start, rest);
    es := [Start] + rest;
  }

  lemma StartFlows(u: Graph, m0: Marks, s: Sys)
    requires Keyed(u) && Inv(u, m0, s)
    requires s.phase.Idle? && s.cleanup.None? && s.queue != [] && Arrived(u, s, s.queue[0].slot)
    ensures Enabled(u, s, Start)
    ensures var s' := Apply(u, s, Start);
      && Inv(u, m0, s') && Flowing(u, s') && s'.phase.Pulling? && s'.phase.req == s.queue[0]
      && DagSame(s, s') && s'.queue == s.queue[1..] && s'.finished == s.finished
  {
    hide Inv, Keyed, Pulled, Cone, Live;
    NotStuck(u, m0, s);
    InvStart(u, m0, s);
  }

  // ---- reaching a given store ----

  /** The state in which all of `u` was delivered and nothing was requested. */
  ghost function Loaded(u: Graph, m0: Marks): Sys {
    Init(m0).(store := Init(m0).store.(blocks := u), pushed := u.Keys)
  }

  lemma LoadStep(u: Graph, m0: Marks, got: set<Slot>, t: Slot)
    requires Keyed(u) && t in u && t !in got && !Committed(m0, t)
    ensures Enabled(u, Loaded(Restrict(u, got), m0), Push(t))
    ensures Apply(u, Loaded(Restrict(u, got), m0), Push(t)) == Loaded(Restrict(u, got + {t}), m0)
  {
    assert Restrict(u, got)[t := u[t]] == Restrict(u, got + {t});
    assert Restrict(u, got).Keys + {t} == Restrict(u, got + {t}).Keys;
  }

  lemma {:induction false} Loads(u: Graph, m0: Marks, got: set<Slot>) returns (es: seq<Event>)
    requires Keyed(u) && got <= u.Keys && forall t :: t in u ==> !Committed(m0, t)
    ensures Runs(u, Loaded(Restrict(u, got), m0), es)
    ensures After(u, Loaded(Restrict(u, got), m0), es) == Loaded(u, m0)
    decreases u.Keys - got
  {
    hide Runs, After, Loaded, Apply, Enabled, Committed;
    if u.Keys - got == {} {
      assert forall x :: x in u ==> x !in u.Keys - got;
      assert Restrict(u, got) == u;
      RunNil(u, Loaded(u, m0));
      es := [];
    } else {
      var t := Pick(u.Keys - got);
      LoadStep(u, m0, got, t);
      es := Loads(u, m0, got + {t});
      RunCons(u, Loaded(Restrict(u, got), m0), Push(t), es);
      es := [Push(t)] + es;
    }
  }

  lemma LoadAll(u: Graph, m0: Marks) returns (es: seq<Event>)
    requires Keyed(u) && forall t :: t in u ==> !Committed(m0, t)
    ensures Runs(u, Init(m0), es) && After(u, Init(m0), es) == Loaded(u, m0)
  {
    hide Runs, After;
    assert Restrict(u, {}) == map[];
    assert Loaded(map[], m0) == Init(m0);
    es := Loads(u, m0, {});
  }
}
