/** What a finished run reports, told from what came back: which steps ran and with what
    result, which were resumed, and which were given up on. */
module FlowReport {
  import opened Core
  import opened Workflows
  import opened Ancestry
  import opened Flows
  import opened FlowInvariant
  import opened FlowRuns
  import opened FlowTheorems
  import opened FlowIsolation
  import opened FlowSkips

  /** What `x` last came back with. */
  function LastResult(events: seq<Event>, x: nat): Option<TaskResult> {
    if events == [] then None
    else
      var last := events[|events| - 1];
      if last.step == x then Some(last.result) else LastResult(events[..|events| - 1], x)
  }

  /** The report has one result for each step that came back, in the order the steps were
      written, each beside its own step. */
  predicate Reports(r: FlowResult, events: seq<Event>) {
    && |r.results| == |r.stepsRun| && Sorted(r.stepsRun)
    && Elems(r.stepsRun) == Elems(Steps(events))
    && (forall i | 0 <= i < |r.results| :: LastResult(events, r.stepsRun[i]) == Some(r.results[i]))
  }

  // ---- Results ----

  lemma {:induction false} LastFront(events: seq<Event>, x: nat)
    requires events != []
    ensures LastResult(events, x)
         == if LastResult(events[1..], x).Some? then LastResult(events[1..], x)
            else if events[0].step == x then Some(events[0].result) else None
    decreases |events|
  {
    var last := |events| - 1;
    if last > 0 {
      assert events[1..][..last - 1] == events[..last][1..];
      LastFront(events[..last], x);
    } else {
      assert events[..0] == [] && events[1..] == [];
    }
  }

  function Lookup(results: map<nat, TaskResult>, x: nat): Option<TaskResult> {
    if x in results then Some(results[x]) else None
  }

  /** Everything out is a step of the workflow. */
  predicate StepsOut(wf: Workflow, st: State) {
    forall x | x in st.running :: x < |wf|
  }

  /** What a run leaves is what came back, whatever it resumed. */
  lemma {:induction false} RunResults(wf: Workflow, out: Task -> Option<DataId>, st: State, events: seq<Event>,
                                      after: State, x: nat)
    requires Runs(wf, out, st, events, after) && StepsOut(wf, st)
    ensures Lookup(after.results, x)
         == if LastResult(events, x).Some? then LastResult(events, x) else Lookup(st.results, x)
    ensures after.resumed == st.resumed
    ensures LastResult(events, x).Some? ==> x < |wf|
    decreases |events|
  {
    if events != [] {
      AdvanceRecords(wf, st, events[0]);
      var next := Advance(wf, st, events[0]).value;
      hide Advance, Possible;
      RunResults(wf, out, next, events[1..], after, x);
      LastFront(events, x);
    }
  }

  lemma {:induction false} CameBackAtAll(events: seq<Event>, x: nat)
    ensures LastResult(events, x).Some? <==> x in Elems(Steps(events))
    decreases |events|
  {
    if events != [] {
      var last := |events| - 1;
      CameBackAtAll(events[..last], x);
      assert Steps(events) == Steps(events[..last]) + [events[last].step];
    }
  }

  lemma {:induction false} StepsRunSorted(results: map<nat, TaskResult>, bound: nat)
    ensures Sorted(StepsRun(results, bound))
  {
    if bound > 0 {
      StepsRunSorted(results, bound - 1);
      var rest := StepsRun(results, bound - 1);
      assert forall i | 0 <= i < |rest| :: rest[i] in rest;
    }
  }

  /** Of every run: the report lists exactly the steps that came back, each with what it came
      back with, and exactly the steps resumed. */
  lemma {:induction false} ReportExactly(wf: Workflow, out: Task -> Option<DataId>, order: seq<nat>, usable: Outputs,
                                         events: seq<Event>, after: State)
    requires RunOf(wf, out, order, usable, events, after)
    ensures Reports(Report(wf, after), events)
    ensures Report(wf, after).resumed == Done(order, usable)
  {
    hide Inv, Runs, Start, Launch;
    Launched(wf, order, usable);
    var st := Launch(wf, Start(wf, order, usable).value);
    var r := Report(wf, after);
    StepsOutFirst(wf, st);
    RunResults(wf, out, st, events, after, 0);
    StepsRunSorted(after.results, |wf|);
    hide Steady, Topological;
    forall x: nat ensures LastResult(events, x) == Lookup(after.results, x) && (x in after.results ==> x < |wf|) {
      RunResults(wf, out, st, events, after, x);
    }
    hide LastResult;
    forall x: nat ensures x in Elems(r.stepsRun) <==> x in Elems(Steps(events)) {
      CameBackAtAll(events, x);
      assert x in r.stepsRun <==> x in after.results;
    }
    assert Elems(r.stepsRun) == Elems(Steps(events));
    forall i | 0 <= i < |r.results| ensures LastResult(events, r.stepsRun[i]) == Some(r.results[i]) {
      assert LastResult(events, r.stepsRun[i]) == Lookup(after.results, r.stepsRun[i]);
    }
  }

  lemma {:induction false} StepsOutFirst(wf: Workflow, st: State)
    requires Steady(wf, st, {})
    ensures StepsOut(wf, st)
  {
    forall x | x in st.running ensures x < |wf| { assert x in Active(st); }
  }

  // ---- Who was given up on ----

  /** Those that give up on hearing of a failure and pass it on, as the finishes come in: a
      dependent of the step that failed, once it has heard from everything else. */
  function Quits(wf: Workflow, resumed: set<nat>, done: set<nat>, quit: set<nat>, events: seq<Event>): set<nat>
    decreases |events|
  {
    if events == [] then quit
    else
      var e := events[0];
      var more := if e.result.success then {} else GivingUp(wf, resumed + done + quit, e.step);
      Quits(wf, resumed, done + {e.step}, quit + more, events[1..])
  }

  /** Not resumed and never come back, though everything it depends on was resumed, came back,
      or gave up and passed it on. */
  predicate GivenUpOn(wf: Workflow, resumed: set<nat>, events: seq<Event>, x: nat) {
    && x < |wf| && x !in resumed && x !in Elems(Steps(events))
    && Deps(wf, x) <= resumed + Elems(Steps(events)) + Quits(wf, resumed, {}, {}, events)
  }

  lemma {:induction false} RunQuits(wf: Workflow, out: Task -> Option<DataId>, st: State, quit: set<nat>,
                                    events: seq<Event>, after: State)
    requires NoDuplicates(wf) && Steady(wf, st, quit) && Closed(wf, Elems(st.resumed))
    requires Runs(wf, out, st, events, after)
    ensures Steady(wf, after, Quits(wf, Elems(st.resumed), st.results.Keys, quit, events))
    ensures after.resumed == st.resumed
    decreases |events|
  {
    hide Inv, NoDuplicates, GivingUp;
    if events != [] {
      var e := events[0];
      var quit1: set<nat>;
      if e.result.success {
        quit1 := Finish(wf, st, quit, e);
        assert quit + {} == quit;
      } else {
        quit1 := FailedFinish(wf, st, quit, e);
        assert Sources(st, quit) == Elems(st.resumed) + st.results.Keys + quit;
      }
      var next := Advance(wf, st, e).value;
      assert next.results.Keys == st.results.Keys + {e.step};
      hide Advance, Steady, Closed;
      RunQuits(wf, out, next, quit1, events[1..], after);
    }
  }

  lemma {:induction false} ListedExactly(wf: Workflow, after: State, quit: set<nat>, x: nat)
    requires NoDuplicates(wf) && Steady(wf, after, quit) && Closed(wf, Elems(after.resumed)) && Finished(after)
    ensures x in Elems(after.abandoned)
       <==> && x < |wf| && x !in Elems(after.resumed) && x !in after.results
            && Deps(wf, x) <= Elems(after.resumed) + after.results.Keys + quit
  {
    Apart(wf, after, quit);
    assert Sources(after, quit) == Elems(after.resumed) + after.results.Keys + quit;
    assert Active(after) == after.results.Keys + Elems(after.abandoned);
    if x < |wf| {
      ActiveUnresumed(wf, after, quit, x);
    } else {
      assert x !in Below(|wf|);
    }
  }

  /** A finished run from the start or from a closed set lists as skipped exactly those. */
  lemma {:induction false} SkippedExactly(wf: Workflow, out: Task -> Option<DataId>, order: seq<nat>, usable: Outputs,
                                          events: seq<Event>, after: State, x: nat)
    requires NoDuplicates(wf) && RunOf(wf, out, order, usable, events, after) && Finished(after)
    requires Closed(wf, Done(order, usable))
    ensures x in Report(wf, after).skipped <==> GivenUpOn(wf, Done(order, usable), events, x)
  {
    hide Inv, Runs, Start, Launch, Steady, NoDuplicates, Closed, Topological;
    Launched(wf, order, usable);
    var st := Launch(wf, Start(wf, order, usable).value);
    RunQuits(wf, out, st, {}, events, after);
    RunOnce(wf, out, st, {}, events, after);
    assert st.results.Keys == {} && {} + Elems(Steps(events)) == Elems(Steps(events));
    hide Quits;
    ListedExactly(wf, after, Quits(wf, Done(order, usable), {}, {}, events), x);
  }
}
