/** A failed step is meant to stop the steps waiting on it. The runner looks only at
    the dependency that came back last, so it does so exactly on the workflows in
    which the dependencies of every step lie on one path. */
module FlowIsolation {
  import opened Core
  import opened Workflows
  import opened Ancestry
  import opened Flows
  import opened FlowInvariant
  import opened FlowRuns
  import opened FlowTheorems

  function Submitted(st: State): set<nat> {
    st.running.Keys + st.results.Keys
  }

  predicate Succeeded(st: State, x: nat) {
    x in st.results && st.results[x].success
  }

  predicate Failed(st: State, x: nat) {
    x in st.results && !st.results[x].success
  }

  /** No step is ever submitted downstream of one that failed, in any run from the start
      or from a set of finished steps closed under dependencies. */
  ghost predicate StopsDownstream(wf: Workflow, out: Task -> Option<DataId>) {
    forall order, usable, events, after, a, x ::
      && RunOf(wf, out, order, usable, events, after) && Closed(wf, Done(order, usable))
      && Failed(after, a) && Ancestor(wf, a, x)
      ==> x !in Submitted(after)
  }

  // ---- On one path, a failure stops everything downstream ----

  /** Done, by this run or an earlier one. */
  predicate Settled(st: State, x: nat) {
    x in Elems(st.resumed) || Succeeded(st, x)
  }

  /** Everything submitted read the outputs of successful steps only. */
  ghost predicate Clean(wf: Workflow, st: State) {
    forall x, d | x in Submitted(st) && x < |wf| && d in Deps(wf, x) :: Settled(st, d)
  }

  lemma {:induction false} CleanUpstream(wf: Workflow, order: seq<nat>, st: State, quit: set<nat>, x: nat, a: nat)
    requires Topological(wf, order) && Steady(wf, st, quit) && Closed(wf, Elems(st.resumed)) && Clean(wf, st)
    requires x in Submitted(st) && Ancestor(wf, a, x)
    ensures Settled(st, a)
  {
    var good := set y | y in Submitted(st) + Elems(st.resumed) && y < |wf| && (y == x || Settled(st, y));
    assert x in Active(st);
    var i := PlaceOf(wf, order, x);
    forall y | y in good ensures Deps(wf, y) <= good {
      forall d | d in Deps(wf, y) ensures d in good {
        if y in Elems(st.resumed) {
          assert d in Elems(st.resumed);
        } else {
          assert Settled(st, d);
          assert d !in Elems(st.resumed) ==> d in Active(st);
        }
      }
    }
    UpstreamWithin(wf, order, good, i, a);
    NotOwnAncestor(wf, order, x);
  }

  /** Whatever has counted against others has heard from everything upstream. */
  lemma {:induction false} SourcesUpstream(wf: Workflow, order: seq<nat>, st: State, quit: set<nat>, x: nat, a: nat)
    requires Topological(wf, order) && Steady(wf, st, quit) && Closed(wf, Elems(st.resumed))
    requires x in Sources(st, quit) && Ancestor(wf, a, x)
    ensures a in Sources(st, quit)
  {
    forall y | y in Sources(st, quit) ensures y < |wf| && Deps(wf, y) <= Sources(st, quit) {
      if y !in Elems(st.resumed) {
        assert y in Active(st);
        ZeroMeansHeard(wf, st.waiting, Sources(st, quit), y);
      }
    }
    var i := PlaceOf(wf, order, x);
    UpstreamWithin(wf, order, Sources(st, quit), i, a);
  }

  /** A step not resumed is active once everything it depends on has been counted. */
  lemma {:induction false} ActiveHeard(wf: Workflow, st: State, quit: set<nat>, x: nat)
    requires NoDuplicates(wf) && Steady(wf, st, quit) && x < |wf| && x !in Elems(st.resumed)
    ensures x in Active(st) <==> Deps(wf, x) <= Sources(st, quit)
  {
    ZeroMeansHeard(wf, st.waiting, Sources(st, quit), x);
    assert !Idle(wf, Elems(st.resumed), x);
  }

  /** With a closed resumed set, active means that and not resumed. */
  lemma {:induction false} ActiveUnresumed(wf: Workflow, st: State, quit: set<nat>, x: nat)
    requires NoDuplicates(wf) && Steady(wf, st, quit) && Closed(wf, Elems(st.resumed)) && x < |wf|
    ensures x in Active(st) <==> Deps(wf, x) <= Sources(st, quit) && x !in Elems(st.resumed)
  {
    ZeroMeansHeard(wf, st.waiting, Sources(st, quit), x);
    assert Idle(wf, Elems(st.resumed), x) <==> x in Elems(st.resumed);
  }

  /** A step released by `e` depends on it, and otherwise only on what was counted before. */
  lemma {:induction false} ReleasedBy(wf: Workflow, st: State, quit: set<nat>, e: Event, x: nat)
    requires NoDuplicates(wf) && Steady(wf, st, quit) && Closed(wf, Elems(st.resumed))
    requires WellSized(wf, st) && Advance(wf, st, e).Some? && Steady(wf, Advance(wf, st, e).value, quit)
    requires x in Active(Advance(wf, st, e).value) && x !in Active(st)
    ensures x < |wf| && e.step in Deps(wf, x)
    ensures Deps(wf, x) - {e.step} <= Sources(st, quit)
  {
    var next := Advance(wf, st, e).value;
    AdvanceRecords(wf, st, e);
    assert Sources(next, quit) == Sources(st, quit) + {e.step};
    assert x < |wf|;
    ActiveUnresumed(wf, st, quit, x);
    ActiveUnresumed(wf, next, quit, x);
  }

  lemma {:induction false} RunningStays(wf: Workflow, st: State, e: Event, x: nat)
    requires WellSized(wf, st) && Advance(wf, st, e).Some?
    ensures x in st.running && x != e.step ==> x in Advance(wf, st, e).value.running
    ensures x in Advance(wf, st, e).value.running && !e.result.success && st.ready == [] ==> x in st.running
  {
  }

  lemma {:induction false} CleanAdvance(wf: Workflow, order: seq<nat>, st: State, quit: set<nat>, e: Event)
    requires NoDuplicates(wf) && Topological(wf, order) && Chained(wf)
    requires Steady(wf, st, quit) && Closed(wf, Elems(st.resumed)) && Clean(wf, st) && e.step in st.running
    ensures Advance(wf, st, e).Some? && Clean(wf, Advance(wf, st, e).value)
  {
    hide Inv, NoDuplicates, Topological, Chained, Advance, Closed, Submitted, Settled;
    var quit' := Finish(wf, st, quit, e);
    var next := Advance(wf, st, e).value;
    forall x, d | x in Submitted(next) && x < |wf| && d in Deps(wf, x) ensures Settled(next, d) {
      if x in Submitted(st) {
        SettledStays(st, next, e, d);
      } else {
        ReleasedNow(wf, st, e, x);
        CleanRelease(wf, order, st, quit, e, x, d);
      }
    }
  }

  lemma {:induction false} SettledStays(st: State, next: State, e: Event, d: nat)
    requires Settled(st, d) && next.resumed == st.resumed && e.step !in st.results
    requires next.results == st.results[e.step := e.result]
    ensures Settled(next, d)
  {}

  /** Only a success submits anything. */
  lemma {:induction false} ReleasedNow(wf: Workflow, st: State, e: Event, x: nat)
    requires WellSized(wf, st) && st.ready == [] && Advance(wf, st, e).Some? && e.step in st.running
    requires Advance(wf, st, e).value.results == st.results[e.step := e.result]
    requires x in Submitted(Advance(wf, st, e).value) && x !in Submitted(st)
    ensures e.result.success && x in Advance(wf, st, e).value.running
  {
    hide Advance;
    RunningStays(wf, st, e, x);
  }

  lemma {:induction false} NotYetSource(wf: Workflow, st: State, quit: set<nat>, x: nat)
    requires Steady(wf, st, quit) && Closed(wf, Elems(st.resumed)) && x in st.running
    ensures x !in Sources(st, quit)
  {
    NotResumed(wf, st, quit, x);
  }

  /** On one path, a step released read only what was done. */
  lemma {:induction false} CleanRelease(wf: Workflow, order: seq<nat>, st: State, quit: set<nat>, e: Event, x: nat,
                                        d: nat)
    requires NoDuplicates(wf) && Topological(wf, order) && Chained(wf)
    requires Steady(wf, st, quit) && Closed(wf, Elems(st.resumed)) && Clean(wf, st) && e.step in st.running
    requires e.result.success
    requires Advance(wf, st, e).Some? && Steady(wf, Advance(wf, st, e).value, quit)
    requires Advance(wf, st, e).value.abandoned == st.abandoned && e.step !in st.results
    requires Advance(wf, st, e).value.resumed == st.resumed
    requires Advance(wf, st, e).value.results == st.results[e.step := e.result]
    requires x in Advance(wf, st, e).value.running && x !in Submitted(st) && x < |wf| && d in Deps(wf, x)
    ensures Settled(Advance(wf, st, e).value, d)
  {
    hide Inv, NoDuplicates, Topological, Clean, Closed;
    var next := Advance(wf, st, e).value;
    NotYetSource(wf, st, quit, e.step);
    NewlyActive(wf, st, quit, e, quit, x);
    assert x in Active(next);
    ReleasedBy(wf, st, quit, e, x);
    hide Advance, Steady;
    if d != e.step {
      assert ChainedAt(wf, x) && Comparable(wf, e.step, d);
      hide Sources;
      if Ancestor(wf, d, e.step) {
        CleanUpstream(wf, order, st, quit, e.step, d);
        SettledStays(st, next, e, d);
      } else {
        SourcesUpstream(wf, order, st, quit, d, e.step);
      }
    }
  }

  lemma {:induction false} NewlyActive(wf: Workflow, st: State, quit: set<nat>, e: Event, quit': set<nat>, x: nat)
    requires Steady(wf, st, quit) && e.result.success
    requires Advance(wf, st, e).Some? && Steady(wf, Advance(wf, st, e).value, quit')
    requires Advance(wf, st, e).value.abandoned == st.abandoned
    requires x in Advance(wf, st, e).value.running && x !in Submitted(st)
    ensures x !in Active(st)
  {
  }

  lemma {:induction false} CleanRun(wf: Workflow, out: Task -> Option<DataId>, order: seq<nat>,
                                    st: State, quit: set<nat>, events: seq<Event>, after: State)
    requires NoDuplicates(wf) && Topological(wf, order) && Chained(wf)
    requires Steady(wf, st, quit) && Closed(wf, Elems(st.resumed)) && Clean(wf, st)
    requires Runs(wf, out, st, events, after)
    ensures Clean(wf, after)
    decreases |events|
  {
    hide Inv, Clean, NoDuplicates, Topological, Chained;
    if events != [] {
      CleanAdvance(wf, order, st, quit, events[0]);
      var quit' := Finish(wf, st, quit, events[0]);
      CleanRun(wf, out, order, Advance(wf, st, events[0]).value, quit', events[1..], after);
    }
  }

  /** With no earlier run, nothing is resumed and only steps with no dependency go out. */
  lemma {:induction false} FromTheStart(wf: Workflow, order: seq<nat>)
    requires Topological(wf, order)
    ensures Start(wf, order, map[]).Some? && WellSized(wf, Start(wf, order, map[]).value)
    ensures var st := Launch(wf, Start(wf, order, map[]).value);
            Steady(wf, st, {}) && st.resumed == [] && st.results == map[] && st.abandoned == [] && Clean(wf, st)
  {
    Launched(wf, order, map[]);
    var st := Launch(wf, Start(wf, order, map[]).value);
    ElemsEmpty(st.resumed);
    forall y | y in Submitted(st) ensures y < |wf| && Deps(wf, y) == {} {
      assert y in Active(st);
      ZeroMeansHeard(wf, st.waiting, Sources(st, {}), y);
    }
  }

  lemma {:induction false} ElemsEmpty(s: seq<nat>)
    ensures Elems(s) == {} <==> s == []
  {
    if s != [] { assert s[0] in Elems(s); }
  }

  /** What a resumed run submits first reads resumed steps only. */
  lemma {:induction false} CleanStart(wf: Workflow, order: seq<nat>, usable: Outputs)
    requires Topological(wf, order)
    ensures Start(wf, order, usable).Some? && WellSized(wf, Start(wf, order, usable).value)
    ensures Clean(wf, Launch(wf, Start(wf, order, usable).value))
  {
    Launched(wf, order, usable);
    var st := Launch(wf, Start(wf, order, usable).value);
    forall y | y in Submitted(st) ensures y < |wf| && Deps(wf, y) <= Elems(st.resumed) {
      ActiveStep(wf, st, {}, y);
    }
  }

  lemma {:induction false} ChainedStops(wf: Workflow, out: Task -> Option<DataId>)
    requires NoDuplicates(wf) && Chained(wf)
    ensures StopsDownstream(wf, out)
  {
    hide Inv, NoDuplicates, Chained, Clean, Closed, Runs, Start, Launch;
    forall order, usable, events, after, a, x |
      && RunOf(wf, out, order, usable, events, after) && Closed(wf, Done(order, usable))
      && Failed(after, a) && Ancestor(wf, a, x)
      ensures x !in Submitted(after)
    {
      Launched(wf, order, usable);
      var st := Launch(wf, Start(wf, order, usable).value);
      CleanStart(wf, order, usable);
      CleanRun(wf, out, order, st, {}, events, after);
      var quit := RunKeeps(wf, out, st, {}, events, after);
      if x in Submitted(after) { NotBelowFailure(wf, order, after, quit, a, x); }
    }
  }

  lemma {:induction false} NotBelowFailure(wf: Workflow, order: seq<nat>, st: State, quit: set<nat>, a: nat, x: nat)
    requires Topological(wf, order) && Steady(wf, st, quit) && Closed(wf, Elems(st.resumed)) && Clean(wf, st)
    requires x in Submitted(st) && Failed(st, a)
    ensures !Ancestor(wf, a, x)
  {
    if Ancestor(wf, a, x) { CleanUpstream(wf, order, st, quit, x, a); }
  }

  // ---- Off one path, some run carries on past a failure ----

  lemma {:induction false} RunsAppend(wf: Workflow, out: Task -> Option<DataId>, st: State, events: seq<Event>,
                                      mid: State, e: Event)
    requires Runs(wf, out, st, events, mid)
    requires WellSized(wf, mid) && e.step in mid.running && Possible(out, mid.running[e.step], e.result)
    requires Advance(wf, mid, e).Some?
    ensures Runs(wf, out, st, events + [e], Advance(wf, mid, e).value)
    decreases |events|
  {
    hide Advance, Possible, WellSized;
    if events == [] {
      assert events + [e] == [e] && [e][1..] == [];
    } else {
      assert (events + [e])[1..] == events[1..] + [e];
      RunsAppend(wf, out, Advance(wf, st, events[0]).value, events[1..], mid, e);
    }
  }

  ghost predicate Reachable(wf: Workflow, out: Task -> Option<DataId>, order: seq<nat>, st: State) {
    exists events :: RunOf(wf, out, order, map[], events, st)
  }

  lemma {:induction false} ReachNext(wf: Workflow, out: Task -> Option<DataId>, order: seq<nat>, st: State, e: Event)
    requires Reachable(wf, out, order, st) && WellSized(wf, st)
    requires e.step in st.running && Possible(out, st.running[e.step], e.result) && Advance(wf, st, e).Some?
    ensures Reachable(wf, out, order, Advance(wf, st, e).value)
  {
    var events :| RunOf(wf, out, order, map[], events, st);
    RunsAppend(wf, out, Launch(wf, Start(wf, order, map[]).value), events, st, e);
    assert RunOf(wf, out, order, map[], events + [e], Advance(wf, st, e).value);
  }

  /** A state some run from the start is in. */
  ghost predicate Reached(wf: Workflow, out: Task -> Option<DataId>, order: seq<nat>, st: State, quit: set<nat>) {
    Steady(wf, st, quit) && st.resumed == [] && Reachable(wf, out, order, st)
  }

  lemma {:induction false} ReachedStart(wf: Workflow, out: Task -> Option<DataId>, order: seq<nat>) returns (st: State)
    requires Topological(wf, order)
    ensures Reached(wf, out, order, st, {}) && st.abandoned == [] && st.results == map[]
  {
    FromTheStart(wf, order);
    st := Launch(wf, Start(wf, order, map[]).value);
    assert RunOf(wf, out, order, map[], [], st);
  }

  /** A running step may come back, either way. */
  lemma {:induction false} ComeBack(wf: Workflow, out: Task -> Option<DataId>, order: seq<nat>, st: State,
                                    quit: set<nat>, x: nat, ok: bool)
    returns (e: Event, next: State, quit': set<nat>)
    requires Reached(wf, out, order, st, quit) && x in st.running
    ensures e.step == x && e.result.success == ok
    ensures WellSized(wf, st) && Advance(wf, st, e) == Some(next) && Reached(wf, out, order, next, quit')
    ensures next.results == st.results[x := e.result]
    ensures ok ==> quit' == quit && next.abandoned == st.abandoned
    ensures forall y | y in st.running && y != x :: y in next.running
  {
    e := Event(x, TaskResult(ok, if ok then out(st.running[x]) else None));
    assert Elems(st.resumed) == {};
    quit' := Finish(wf, st, quit, e);
    next := Advance(wf, st, e).value;
    ReachNext(wf, out, order, st, e);
    forall y | y in st.running && y != x ensures y in next.running { RunningStays(wf, st, e, y); }
  }

  /** Any set closed under dependencies can be run to success before anything else comes back. */
  lemma {:induction false} Drain(wf: Workflow, out: Task -> Option<DataId>, order: seq<nat>, s: set<nat>, n: nat)
    returns (st: State)
    requires NoDuplicates(wf) && Topological(wf, order) && Closed(wf, s) && n <= |order|
    ensures Reached(wf, out, order, st, {}) && st.abandoned == []
    ensures st.results.Keys == s * Elems(order[..n])
    ensures FailureFree(st, Below(|wf|))
  {
    hide Inv, Reachable, NoDuplicates, Topological, Closed;
    if n == 0 {
      st := ReachedStart(wf, out, order);
    } else {
      st := Drain(wf, out, order, s, n - 1);
      var x := order[n - 1];
      assert order[..n] == order[..n - 1] + [x];
      assert Elems(order[..n]) == Elems(order[..n - 1]) + {x};
      if x in s {
        ReadyToGo(wf, st, order, s, n - 1);
        var e, quit;
        e, st, quit := ComeBack(wf, out, order, st, {}, x, true);
      }
      hide Reached;
    }
  }

  lemma {:induction false} ReadyToGo(wf: Workflow, st: State, order: seq<nat>, s: set<nat>, n: nat)
    requires NoDuplicates(wf) && Topological(wf, order) && Closed(wf, s) && n < |order| && order[n] in s
    requires Steady(wf, st, {}) && st.resumed == [] && st.abandoned == []
    requires st.results.Keys == s * Elems(order[..n])
    ensures order[n] in st.running
  {
    assert Elems(st.resumed) == {};
    ActiveHeard(wf, st, {}, order[n]);
    assert order[n] !in Elems(order[..n]);
  }

  /** Everything that is neither `a` nor `b` nor downstream of either. */
  ghost function Elsewhere(wf: Workflow, a: nat, b: nat): set<nat> {
    set y | y in Below(|wf|) && y != a && y != b && !Ancestor(wf, a, y) && !Ancestor(wf, b, y)
  }

  lemma {:induction false} ElsewhereClosed(wf: Workflow, order: seq<nat>, a: nat, b: nat)
    requires Topological(wf, order)
    ensures Closed(wf, Elsewhere(wf, a, b))
  {
    forall y, d | y in Elsewhere(wf, a, b) && d in Deps(wf, y) ensures d in Elsewhere(wf, a, b) {
      var i := PlaceOf(wf, order, y);
      var j := DepBefore(wf, order, i, d);
      DepIsAncestor(wf, d, y);
      if Ancestor(wf, a, d) { AncestorTransitive(wf, a, d, y); }
      if Ancestor(wf, b, d) { AncestorTransitive(wf, b, d, y); }
    }
  }

  /** With everything else done, two unrelated steps are both out. */
  lemma {:induction false} BothOut(wf: Workflow, order: seq<nat>, st: State, a: nat, b: nat)
    requires NoDuplicates(wf) && Topological(wf, order) && a < |wf| && b < |wf| && !Comparable(wf, a, b)
    requires Steady(wf, st, {}) && st.resumed == [] && st.abandoned == []
    requires st.results.Keys == Elsewhere(wf, a, b)
    ensures a in st.running
  {
    assert Elems(st.resumed) == {};
    forall d | d in Deps(wf, a) ensures d in Elsewhere(wf, a, b) {
      var i := PlaceOf(wf, order, a);
      var j := DepBefore(wf, order, i, d);
      DepIsAncestor(wf, d, a);
      NotOwnAncestor(wf, order, a);
      if Ancestor(wf, a, d) { AncestorTransitive(wf, a, d, a); }
      if Ancestor(wf, b, d) { AncestorTransitive(wf, b, d, a); }
    }
    ActiveHeard(wf, st, {}, a);
  }

  /** The join goes out when the last of its dependencies succeeds, though another failed. */
  lemma {:induction false} JoinGoesOut(wf: Workflow, st: State, quit: set<nat>, e: Event, j: nat)
    requires NoDuplicates(wf) && Steady(wf, st, quit) && e.step in st.running && e.step !in st.resumed
    requires e.result.success && WellSized(wf, st) && Advance(wf, st, e).Some?
    requires Steady(wf, Advance(wf, st, e).value, quit)
    requires Advance(wf, st, e).value.abandoned == st.abandoned
    requires j < |wf| && j !in st.resumed && e.step in Deps(wf, j) && j !in st.results && j != e.step
    requires Deps(wf, j) <= Elems(st.resumed) + st.results.Keys + {e.step}
    ensures j in Advance(wf, st, e).value.running
  {
    var next := Advance(wf, st, e).value;
    AdvanceRecords(wf, st, e);
    assert e.step !in Sources(st, quit);
    ActiveHeard(wf, st, quit, j);
    ActiveHeard(wf, next, quit, j);
  }

  /** Everything but two unrelated steps and what is downstream of them has run. */
  lemma {:induction false} AllButTwo(wf: Workflow, out: Task -> Option<DataId>, order: seq<nat>, a: nat,
                                     b: nat) returns (st: State)
    requires NoDuplicates(wf) && Topological(wf, order) && a < |wf| && b < |wf| && !Comparable(wf, a, b)
    ensures Reached(wf, out, order, st, {}) && st.results.Keys == Elsewhere(wf, a, b)
    ensures a in st.running && b in st.running
  {
    hide Inv;
    ElsewhereClosed(wf, order, a, b);
    st := Drain(wf, out, order, Elsewhere(wf, a, b), |order|);
    assert order[..|order|] == order;
    CoversAll(|wf|, order);
    assert st.results.Keys == Elsewhere(wf, a, b);
    BothOut(wf, order, st, a, b);
    assert Elsewhere(wf, b, a) == Elsewhere(wf, a, b);
    BothOut(wf, order, st, b, a);
  }

  /** A run in which `a` fails, `b` then succeeds, and the join of both goes out. */
  lemma {:induction false} LeakAt(wf: Workflow, out: Task -> Option<DataId>, order: seq<nat>, a: nat, b: nat,
                                  j: nat) returns (next: State)
    requires NoDuplicates(wf) && Topological(wf, order) && a < |wf| && b < |wf| && j < |wf|
    requires a in Deps(wf, j) && b in Deps(wf, j) && !Comparable(wf, a, b)
    requires Deps(wf, j) <= Elsewhere(wf, a, b) + {a, b} && j !in Elsewhere(wf, a, b) + {a, b}
    ensures Reachable(wf, out, order, next) && Failed(next, a) && j in next.running && WellSized(wf, next)
    ensures Succeeded(next, b)
  {
    hide Inv, Topological, RunOf;
    var st := AllButTwo(wf, out, order, a, b);
    var e1, mid, quit := ComeBack(wf, out, order, st, {}, a, false);
    var e2, quit2;
    e2, next, quit2 := ComeBack(wf, out, order, mid, quit, b, true);
    assert mid.results.Keys == Elsewhere(wf, a, b) + {a};
    JoinGoesOut(wf, mid, quit, e2, j);
    assert next.results.Keys == mid.results.Keys + {b};
  }

  /** Where that can happen. */
  lemma {:induction false} LeakPlace(wf: Workflow, order: seq<nat>) returns (a: nat, b: nat, j: nat)
    requires NoDuplicates(wf) && Topological(wf, order) && !Chained(wf)
    ensures a < |wf| && b < |wf| && j < |wf| && a != j && Ancestor(wf, a, j)
    ensures a in Deps(wf, j) && b in Deps(wf, j) && !Comparable(wf, a, b)
    ensures Deps(wf, j) <= Elsewhere(wf, a, b) + {a, b} && j !in Elsewhere(wf, a, b) + {a, b}
  {
    j, a, b := UnrelatedTips(wf, order);
    var i := PlaceOf(wf, order, j);
    forall c | c in Deps(wf, j) ensures c in Elsewhere(wf, a, b) + {a, b} {
      var k := DepBefore(wf, order, i, c);
    }
    var ia := DepBefore(wf, order, i, a);
    var ib := DepBefore(wf, order, i, b);
    DepIsAncestor(wf, a, j);
  }

  lemma {:induction false} UnchainedLeaks(wf: Workflow, out: Task -> Option<DataId>, order: seq<nat>)
    requires NoDuplicates(wf) && Topological(wf, order) && !Chained(wf)
    ensures !StopsDownstream(wf, out)
  {
    var a, b, j := LeakPlace(wf, order);
    var next := LeakAt(wf, out, order, a, b, j);
    var events :| RunOf(wf, out, order, map[], events, next);
    assert Done(order, map[]) == {};
    assert j in Submitted(next);
  }

  /** The runner keeps its promise that a failed step stops whatever waits on it, in
      every run and through every level, exactly when of any two dependencies of a
      step one is upstream of the other. */
  lemma {:induction false} FailureStopsDownstream(wf: Workflow, out: Task -> Option<DataId>)
    requires NoDuplicates(wf) && Acyclic(wf)
    ensures StopsDownstream(wf, out) <==> Chained(wf)
  {
    if Chained(wf) {
      ChainedStops(wf, out);
    } else {
      var order :| Topological(wf, order);
      UnchainedLeaks(wf, out, order);
    }
  }

  /** In particular where no step has more than one dependency. */
  lemma {:induction false} OneDependencyIsChained(wf: Workflow)
    requires forall x: nat | x < |wf| :: |wf[x].dependsOn| <= 1
    ensures NoDuplicates(wf) && Chained(wf)
  {
    forall j: nat | j < |wf| ensures ChainedAt(wf, j) {
      forall a, b | a in Deps(wf, j) && b in Deps(wf, j) ensures a == b {}
    }
  }
}
