/** Confluence, what success means, resuming, and termination. */
module FlowLaws {
  import opened Core
  import opened Workflows
  import opened Ancestry
  import opened Flows
  import opened FlowInvariant
  import opened FlowRuns
  import opened FlowTheorems
  import opened FlowIsolation

  // ---- Everything succeeds ----

  lemma {:induction false} AllClosed(wf: Workflow, order: seq<nat>)
    requires Topological(wf, order)
    ensures Closed(wf, Below(|wf|))
  {
    forall x, d | x in Below(|wf|) && d in Deps(wf, x) ensures d in Below(|wf|) {
      var i := PlaceOf(wf, order, x);
      var j := DepBefore(wf, order, i, d);
    }
  }

  /** Every step comes back after everything it depends on. */
  lemma {:induction false} DependenciesFirst(wf: Workflow, out: Task -> Option<DataId>, st: State,
                                             events: seq<Event>, after: State, i: nat)
    requires Steady(wf, st, {}) && Closed(wf, Elems(st.resumed))
    requires Runs(wf, out, st, events, after) && AllSucceed(events) && i < |events|
    ensures events[i].step < |wf|
    ensures Deps(wf, events[i].step) <= Elems(st.resumed) + st.results.Keys + Elems(Steps(events)[..i])
    decreases |events|
  {
    hide Inv, Advance;
    var x := events[0].step;
    ActiveStep(wf, st, {}, x);
    if i > 0 {
      var quit := Finish(wf, st, {}, events[0]);
      StepsSplit(events);
      assert Steps(events)[..i] == [x] + Steps(events[1..])[..i - 1];
      assert Elems(Steps(events)[..i]) == {x} + Elems(Steps(events[1..])[..i - 1]);
      DependenciesFirst(wf, out, Advance(wf, st, events[0]).value, events[1..], after, i - 1);
    }
  }

  /** Confluence. With every step succeeding, any order of finishes is a topological
      order in which each step ran once, and it leaves the outputs of a sequential
      evaluation in any other. */
  lemma {:induction false} Confluence(wf: Workflow, out: Task -> Option<DataId>, order: seq<nat>,
                                      events: seq<Event>, after: State)
    requires RunOf(wf, out, order, map[], events, after) && Finished(after)
    requires NoDuplicates(wf) && AllSucceed(events)
    ensures Topological(wf, Steps(events))
    ensures after.outputs == SeqEval(wf, out, order) == SeqEval(wf, out, Steps(events))
    ensures IsSuccess(Report(wf, after)) && Elems(Report(wf, after).stepsRun) == Below(|wf|)
  {
    hide Inv, Runs, RunOf;
    RunHasOrder(wf, out, order, map[], events, after);
    EveryStepRan(wf, out, order, events, after);
    AnyOrder(wf, out, order, events, after, order);
    FinishOrder(wf, out, order, events, after);
    AnyOrder(wf, out, order, events, after, Steps(events));
    assert Elems(StepsRun(after.results, |wf|)) == Below(|wf|);
  }

  lemma {:induction false} FinishOrder(wf: Workflow, out: Task -> Option<DataId>, order: seq<nat>,
                                       events: seq<Event>, after: State)
    requires RunOf(wf, out, order, map[], events, after) && AllSucceed(events)
    requires after.results.Keys == Below(|wf|)
    ensures Topological(wf, Steps(events))
  {
    hide Inv, Runs, Start, Launch;
    FromTheStart(wf, order);
    var st := Launch(wf, Start(wf, order, map[]).value);
    assert Elems(st.resumed) == {};
    RunOnce(wf, out, st, {}, events, after);
    DistinctSize(Steps(events));
    forall i | 0 <= i < |events| ensures Steps(events)[i] < |wf| && Deps(wf, Steps(events)[i]) <= Elems(Steps(events)[..i]) {
      DependenciesFirst(wf, out, st, events, after, i);
    }
  }

  lemma {:induction false} EveryStepRan(wf: Workflow, out: Task -> Option<DataId>, order: seq<nat>,
                                        events: seq<Event>, after: State)
    requires RunOf(wf, out, order, map[], events, after) && Finished(after)
    requires NoDuplicates(wf) && AllSucceed(events)
    ensures after.results.Keys == Below(|wf|) && after.abandoned == []
    ensures forall x | x in after.results :: after.results[x].success
    ensures IsSuccess(Report(wf, after))
  {
    hide Inv, Runs, Start, Launch;
    SuccessfulRun(wf, out, order, events, after);
    assert Done(order, map[]) == {};
    var quit := SettledRun(wf, out, order, map[], events, after);
    AllClosed(wf, order);
    assert Elems(after.resumed) == {};
    forall x | x in Below(|wf|) ensures x in after.results {
      var i := PlaceOf(wf, order, x);
      AllReached(wf, after, quit, order, Below(|wf|), i);
    }
    Apart(wf, after, quit);
  }

  lemma {:induction false} SettledRun(wf: Workflow, out: Task -> Option<DataId>, order: seq<nat>, usable: Outputs,
                                      events: seq<Event>, after: State)
    returns (quit: set<nat>)
    requires RunOf(wf, out, order, usable, events, after) && Closed(wf, Done(order, usable))
    ensures Steady(wf, after, quit) && Elems(after.resumed) == Done(order, usable)
  {
    Launched(wf, order, usable);
    quit := RunKeeps(wf, out, Launch(wf, Start(wf, order, usable).value), {}, events, after);
  }

  /** With nothing failing, nothing is skipped and every result is a success. */
  lemma {:induction false} SuccessfulRun(wf: Workflow, out: Task -> Option<DataId>, order: seq<nat>,
                                         events: seq<Event>, after: State)
    requires RunOf(wf, out, order, map[], events, after) && AllSucceed(events)
    ensures after.abandoned == [] && after.resumed == []
    ensures forall x | x in after.results :: after.results[x].success
    ensures IsSuccess(Report(wf, after))
  {
    hide Inv, Runs, Start, Launch, Report, IsSuccess;
    FromTheStart(wf, order);
    var st := Launch(wf, Start(wf, order, map[]).value);
    assert Elems(st.resumed) == {};
    var quit := RunKeeps(wf, out, st, {}, events, after);
    RunOnce(wf, out, st, {}, events, after);
    RunRecords(wf, out, st, {}, events, after);
    hide Steady;
    forall x | x in after.results ensures after.results[x].success {
      assert x in Steps(events);
      var i :| 0 <= i < |events| && Steps(events)[i] == x;
      assert events[i] in events;
    }
    ReportsSuccess(wf, after);
  }

  lemma {:induction false} ReportsSuccess(wf: Workflow, after: State)
    requires after.abandoned == [] && forall x | x in after.results :: after.results[x].success
    ensures IsSuccess(Report(wf, after))
  {}

  lemma {:induction false} AnyOrder(wf: Workflow, out: Task -> Option<DataId>, order: seq<nat>, events: seq<Event>,
                                    after: State, other: seq<nat>)
    requires RunOf(wf, out, order, map[], events, after) && Finished(after)
    requires NoDuplicates(wf) && AllSucceed(events) && Topological(wf, other)
    ensures after.outputs == SeqEval(wf, out, other)
  {
    hide Inv, RunOf, EvalFirst, SameAt, Fixpoint, NoDuplicates;
    SuccessfulRun(wf, out, order, events, after);
    EveryStepRan(wf, out, order, events, after);
    RunHasOrder(wf, out, order, map[], events, after);
    AllClosed(wf, order);
    var v := SeqEval(wf, out, other);
    SeqEvalFixpoint(wf, out, other);
    assert Done(order, map[]) == {};
    FaithfulRun(wf, out, order, map[], v, events, after, Below(|wf|));
    SameEverywhere(after.outputs, v, Below(|wf|));
  }

  lemma {:induction false} SameEverywhere(a: Outputs, b: Outputs, s: set<nat>)
    requires a.Keys <= s && b.Keys <= s && forall x | x in s :: SameAt(a, b, x)
    ensures a == b
  {
    forall x ensures x in a <==> x in b {
      assert x in s ==> SameAt(a, b, x);
    }
    forall x | x in a ensures a[x] == b[x] { assert SameAt(a, b, x); }
  }

  // ---- What the report says ----

  /** A run in which nothing fails always reports success. It ran every step exactly
      when no step lists a dependency twice: a step that does is never released, and
      nothing says so. */
  lemma {:induction false} DuplicatesStarve(wf: Workflow, out: Task -> Option<DataId>, order: seq<nat>,
                                            events: seq<Event>, after: State)
    requires RunOf(wf, out, order, map[], events, after) && Finished(after) && AllSucceed(events)
    ensures IsSuccess(Report(wf, after))
    ensures after.results.Keys == Below(|wf|) <==> NoDuplicates(wf)
  {
    hide Inv, Runs, RunOf;
    SuccessfulRun(wf, out, order, events, after);
    assert Done(order, map[]) == {};
    var quit := SettledRun(wf, out, order, map[], events, after);
    if NoDuplicates(wf) {
      EveryStepRan(wf, out, order, events, after);
    } else {
      var x: nat :| x < |wf| && !Distinct(wf[x].dependsOn);
      if x in after.results { ActiveStep(wf, after, quit, x); }
      assert x in Below(|wf|);
    }
  }

  /** Success is reported exactly when every step was resumed, or ran and succeeded. */
  lemma {:induction false} SuccessMeansEverything(wf: Workflow, out: Task -> Option<DataId>, order: seq<nat>, usable: Outputs,
                               events: seq<Event>, after: State)
    requires RunOf(wf, out, order, usable, events, after) && Finished(after)
    requires NoDuplicates(wf) && Closed(wf, Done(order, usable))
    ensures IsSuccess(Report(wf, after)) <==>
              forall x: nat | x < |wf| :: x in after.resumed || Succeeded(after, x)
  {
    hide Inv, Runs, RunOf, Report;
    RunHasOrder(wf, out, order, usable, events, after);
    var quit := SettledRun(wf, out, order, usable, events, after);
    Apart(wf, after, quit);
    AllClosed(wf, order);
    ReportSuccess(wf, after);
    if IsSuccess(Report(wf, after)) {
      forall x: nat | x < |wf| ensures x in after.resumed || Succeeded(after, x) {
        var i := PlaceOf(wf, order, x);
        AllReached(wf, after, quit, order, Below(|wf|), i);
      }
    }
    forall x | x in after.results.Keys + Elems(after.abandoned) ensures x !in after.resumed {
      NotResumed(wf, after, quit, x);
    }
  }

  lemma {:induction false} RunHasOrder(wf: Workflow, out: Task -> Option<DataId>, order: seq<nat>, usable: Outputs,
                    events: seq<Event>, after: State)
    requires RunOf(wf, out, order, usable, events, after)
    ensures Topological(wf, order)
  {
  }

  lemma {:induction false} ReportSuccess(wf: Workflow, st: State)
    requires forall x | x in st.results :: x < |wf|
    ensures IsSuccess(Report(wf, st)) <==> Elems(st.abandoned) == {} && forall x | x in st.results :: st.results[x].success
  {
    var r := Report(wf, st);
    forall x | x in st.results && IsSuccess(r) ensures st.results[x].success {
      var i :| 0 <= i < |r.stepsRun| && r.stepsRun[i] == x;
      assert r.results[i] == st.results[x];
    }
  }

  /** A step with no failed step upstream runs, or was resumed, and produces what it
      would have in a run where nothing failed; one that is skipped has a failed step upstream. */
  lemma {:induction false} UntouchedByFailure(wf: Workflow, out: Task -> Option<DataId>, order: seq<nat>,
                                              events: seq<Event>, after: State, x: nat)
    requires RunOf(wf, out, order, map[], events, after) && Finished(after) && NoDuplicates(wf) && x < |wf|
    requires forall a | Failed(after, a) :: a != x && !Ancestor(wf, a, x)
    ensures x in after.results && x !in after.abandoned
    ensures SameAt(after.outputs, SeqEval(wf, out, order), x)
  {
    var s := Upstream(wf, x);
    UpstreamClosed(wf, order, x);
    assert Done(order, map[]) == {};
    assert FailureFree(after, s) by {
      forall y | y in s && y in after.results ensures after.results[y].success {
        assert Failed(after, y) ==> y != x && !Ancestor(wf, y, x);
      }
    }
    FailureIsolation(wf, out, order, map[], events, after, s);
    var quit := SettledRun(wf, out, order, map[], events, after);
    assert x in s && x !in Elems(after.abandoned);
  }
}
