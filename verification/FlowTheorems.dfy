/** What a workflow run promises, for every order its steps can finish in. */
module FlowTheorems {
  import opened Core
  import opened Workflows
  import opened Flows
  import opened FlowInvariant
  import opened FlowRuns

  /** `after` is where a run of `wf` is once `events` have come back. `usable` holds the
      outputs an earlier run left, empty for a run from the start. */
  ghost predicate RunOf(wf: Workflow, out: Task -> Option<DataId>, order: seq<nat>, usable: Outputs,
                        events: seq<Event>, after: State) {
    && Topological(wf, order)
    && Start(wf, order, usable).Some?
    && WellSized(wf, Start(wf, order, usable).value)
    && Runs(wf, out, Launch(wf, Start(wf, order, usable).value), events, after)
  }

  /** Nothing is out and nothing is left to send: the loop ends here. */
  predicate Finished(st: State) {
    st.ready == [] && st.running == map[]
  }

  predicate AllSucceed(events: seq<Event>) {
    forall i | 0 <= i < |events| :: events[i].result.success
  }

  // ---- Between two finishes ----

  predicate Steady(wf: Workflow, st: State, quit: set<nat>) {
    Inv(wf, st, quit, {}) && WellSized(wf, st) && st.ready == []
  }

  lemma {:induction false} NotResumed(wf: Workflow, st: State, quit: set<nat>, step: nat)
    requires Steady(wf, st, quit) && Closed(wf, Elems(st.resumed)) && step in Active(st)
    ensures step !in st.resumed
  {
    assert step < |wf| && !Idle(wf, Elems(st.resumed), step);
    assert step !in Elems(st.resumed);
  }

  /** An active step is a step of the workflow, lists no dependency twice, and has heard from all. */
  lemma {:induction false} ActiveStep(wf: Workflow, st: State, quit: set<nat>, x: nat)
    requires Steady(wf, st, quit) && x in Active(st)
    ensures x < |wf| && Deps(wf, x) <= Sources(st, quit) && Distinct(wf[x].dependsOn)
  {
    ZeroMeansHeard(wf, st.waiting, Sources(st, quit), x);
  }

  lemma {:induction false} Apart(wf: Workflow, st: State, quit: set<nat>)
    requires Steady(wf, st, quit)
    ensures st.running.Keys !! st.results.Keys !! Elems(st.abandoned)
    ensures st.results.Keys + Elems(st.abandoned) <= Below(|wf|)
  {
    forall x | x in st.results.Keys + Elems(st.abandoned) ensures x in Below(|wf|) { assert x in Active(st); }
  }

  lemma {:induction false} Launched(wf: Workflow, order: seq<nat>, usable: Outputs)
    requires Topological(wf, order)
    ensures Start(wf, order, usable).Some? && WellSized(wf, Start(wf, order, usable).value)
    ensures var st := Launch(wf, Start(wf, order, usable).value);
            && Steady(wf, st, {})
            && Elems(st.resumed) == Done(order, usable) == st.outputs.Keys
            && (forall x | x in Done(order, usable) :: st.outputs[x] == usable[x])
            && st.results == map[] && st.abandoned == []
  {
    StartInv(wf, order, usable);
    LaunchKeeps(wf, Start(wf, order, usable).value, {});
  }

  /** The first submissions read the outputs an earlier run left, and those alone. */
  lemma {:induction false} LaunchedFaithful(wf: Workflow, out: Task -> Option<DataId>, order: seq<nat>,
                                            usable: Outputs, v: Outputs, s: set<nat>)
    requires Topological(wf, order) && Closed(wf, s)
    requires forall x | x in s && x in Done(order, usable) :: SameAt(usable, v, x)
    ensures Start(wf, order, usable).Some? && WellSized(wf, Start(wf, order, usable).value)
    ensures Faithful(wf, Launch(wf, Start(wf, order, usable).value), v, s)
  {
    Launched(wf, order, usable);
    var st := Launch(wf, Start(wf, order, usable).value);
    StartInv(wf, order, usable);
    forall x | x in s && x in st.running ensures x < |wf| && st.running[x] == TaskFor(wf, x, v) {
      assert x in Active(st);
      ZeroMeansHeard(wf, st.waiting, Sources(st, {}), x);
      forall d | d in wf[x].dependsOn ensures SameAt(st.outputs, v, d) {
        assert d in Deps(wf, x) && d in s;
      }
      InputsAgree(wf[x].task.inputs, wf[x].dependsOn, st.outputs, v);
    }
  }

  // ---- Along a run ----

  /** One finish of a run whose resumed set is closed. */
  lemma {:induction false} Finish(wf: Workflow, st: State, quit: set<nat>, e: Event) returns (quit': set<nat>)
    requires Steady(wf, st, quit) && Closed(wf, Elems(st.resumed)) && e.step in st.running
    ensures e.step !in st.results && e.step !in st.resumed
    ensures Advance(wf, st, e).Some? && Steady(wf, Advance(wf, st, e).value, quit')
    ensures Advance(wf, st, e).value.resumed == st.resumed
    ensures Advance(wf, st, e).value.results == st.results[e.step := e.result]
    ensures e.result.success ==> quit' == quit && Advance(wf, st, e).value.abandoned == st.abandoned
  {
    assert e.step in Active(st);
    NotResumed(wf, st, quit, e.step);
    ClosedSpares(wf, st, e.step);
    quit' := AdvanceKeeps(wf, st, quit, e);
    AdvanceRecords(wf, st, e);
  }

  lemma {:induction false} RunKeeps(wf: Workflow, out: Task -> Option<DataId>, st: State, quit: set<nat>,
                                    events: seq<Event>, after: State)
    returns (quit': set<nat>)
    requires Steady(wf, st, quit) && Closed(wf, Elems(st.resumed))
    requires Runs(wf, out, st, events, after)
    ensures Steady(wf, after, quit') && after.resumed == st.resumed
    ensures AllSucceed(events) ==> quit' == quit && after.abandoned == st.abandoned
    decreases |events|
  {
    if events == [] {
      return quit;
    }
    quit' := Finish(wf, st, quit, events[0]);
    quit' := RunKeeps(wf, out, Advance(wf, st, events[0]).value, quit', events[1..], after);
  }

  /** Every event is the one and only finish of its step. */
  lemma {:induction false} RunOnce(wf: Workflow, out: Task -> Option<DataId>, st: State, quit: set<nat>,
                                   events: seq<Event>, after: State)
    requires Steady(wf, st, quit) && Closed(wf, Elems(st.resumed))
    requires Runs(wf, out, st, events, after)
    ensures Distinct(Steps(events)) && st.results.Keys !! Elems(Steps(events))
    ensures after.results.Keys == st.results.Keys + Elems(Steps(events))
    decreases |events|
  {
    hide Inv;
    if events != [] {
      var quit1 := Finish(wf, st, quit, events[0]);
      hide Advance, Steady, Closed;
      RunOnce(wf, out, Advance(wf, st, events[0]).value, quit1, events[1..], after);
      StepsSplit(events);
    }
  }

  /** What came back is what is recorded, for good. */
  lemma {:induction false} RunRecords(wf: Workflow, out: Task -> Option<DataId>, st: State, quit: set<nat>,
                                      events: seq<Event>, after: State)
    requires Steady(wf, st, quit) && Closed(wf, Elems(st.resumed))
    requires Runs(wf, out, st, events, after)
    ensures forall x | x in st.results :: x in after.results && after.results[x] == st.results[x]
    ensures forall e | e in events :: e.step in after.results && after.results[e.step] == e.result
    decreases |events|
  {
    if events != [] {
      var quit1 := Finish(wf, st, quit, events[0]);
      var next := Advance(wf, st, events[0]).value;
      RunRecords(wf, out, next, quit1, events[1..], after);
      forall e | e in events ensures e.step in after.results && after.results[e.step] == e.result {
        if e == events[0] { assert e.step in next.results; } else { assert e in events[1..]; }
      }
    }
  }

  lemma {:induction false} StepsSplit(events: seq<Event>)
    requires events != []
    ensures Steps(events) == [events[0].step] + Steps(events[1..])
    ensures Elems(Steps(events)) == {events[0].step} + Elems(Steps(events[1..]))
    ensures Distinct(Steps(events[1..])) && events[0].step !in Elems(Steps(events[1..])) ==> Distinct(Steps(events))
  {
    assert Steps(events) == [events[0].step] + Steps(events[1..]);
  }

  lemma {:induction false} RunFaithful(wf: Workflow, out: Task -> Option<DataId>, order: seq<nat>, v: Outputs,
                                       st: State, quit: set<nat>, events: seq<Event>, after: State, s: set<nat>)
    requires Steady(wf, st, quit) && Closed(wf, Elems(st.resumed))
    requires Runs(wf, out, st, events, after)
    requires Topological(wf, order) && Fixpoint(wf, out, v) && Closed(wf, s)
    requires Faithful(wf, st, v, s) && FailureFree(after, s)
    ensures Faithful(wf, after, v, s)
    decreases |events|
  {
    if events != [] {
      var e := events[0];
      var quit1 := Finish(wf, st, quit, e);
      var next := Advance(wf, st, e).value;
      RunRecords(wf, out, next, quit1, events[1..], after);
      ClosedSpares(wf, st, e.step);
      AdvanceFaithful(wf, out, order, v, st, quit, e, s);
      RunFaithful(wf, out, order, v, next, quit1, events[1..], after, s);
    }
  }

  // ---- How a run ends ----

  /** With nothing out, every step of a failure-free closed set has run or was resumed,
      unless something in it lists a dependency twice. */
  lemma {:induction false} AllReached(wf: Workflow, st: State, quit: set<nat>, order: seq<nat>, s: set<nat>, i: nat)
    requires Steady(wf, st, quit) && Finished(st) && Topological(wf, order) && i < |order|
    requires Closed(wf, s) && FailureFree(st, s) && order[i] in s
    requires forall x | x in s :: x < |wf| && Distinct(wf[x].dependsOn)
    ensures order[i] in st.results.Keys + Elems(st.resumed)
  {
    var x := order[i];
    forall d | d in Deps(wf, x) ensures d in Sources(st, quit) {
      var j := DepBefore(wf, order, i, d);
      AllReached(wf, st, quit, order, s, j);
    }
    ZeroMeansHeard(wf, st.waiting, Sources(st, quit), x);
    NothingAbandoned(wf, st, quit, order, s);
    assert x in Active(st) || Idle(wf, Elems(st.resumed), x);
  }

  /** On a closed set in which nothing fails, a whole run agrees with any evaluation. */
  lemma {:induction false} FaithfulRun(wf: Workflow, out: Task -> Option<DataId>, order: seq<nat>, usable: Outputs, v: Outputs,
                    events: seq<Event>, after: State, s: set<nat>)
    requires RunOf(wf, out, order, usable, events, after) && Closed(wf, Done(order, usable))
    requires Fixpoint(wf, out, v) && Closed(wf, s) && FailureFree(after, s)
    requires forall x | x in s && x in Done(order, usable) :: SameAt(usable, v, x)
    ensures Faithful(wf, after, v, s)
  {
    Launched(wf, order, usable);
    LaunchedFaithful(wf, out, order, usable, v, s);
    RunFaithful(wf, out, order, v, Launch(wf, Start(wf, order, usable).value), {}, events, after, s);
  }

  /** Failure isolation. Whatever fails, and in whatever order: no step is both run and
      skipped, and every step of a set closed under dependencies in which nothing failed
      has run, or was resumed, and has the output of the sequential evaluation. */
  lemma {:induction false} FailureIsolation(wf: Workflow, out: Task -> Option<DataId>, order: seq<nat>, usable: Outputs,
                         events: seq<Event>, after: State, s: set<nat>)
    requires RunOf(wf, out, order, usable, events, after)
    requires NoDuplicates(wf) && Closed(wf, Done(order, usable)) && Closed(wf, s)
    requires forall x | x in s && x in Done(order, usable) :: SameAt(usable, SeqEval(wf, out, order), x)
    requires FailureFree(after, s)
    ensures after.results.Keys !! Elems(after.abandoned) !! Elems(after.resumed)
    ensures Finished(after) ==> forall x | x in s ::
              && x in after.results.Keys + Elems(after.resumed)
              && SameAt(after.outputs, SeqEval(wf, out, order), x)
  {
    var v := SeqEval(wf, out, order);
    SeqEvalFixpoint(wf, out, order);
    Launched(wf, order, usable);
    var quit := RunKeeps(wf, out, Launch(wf, Start(wf, order, usable).value), {}, events, after);
    FaithfulRun(wf, out, order, usable, v, events, after, s);
    forall x | x in Elems(after.abandoned) ensures x !in after.resumed { NotResumed(wf, after, quit, x); }
    if Finished(after) {
      forall x | x in s
        ensures x in after.results.Keys + Elems(after.resumed) && SameAt(after.outputs, v, x)
      {
        var i := PlaceOf(wf, order, x);
        AllReached(wf, after, quit, order, s, i);
      }
    }
  }
}
