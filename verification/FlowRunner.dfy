/** The runner itself: the loop that submits what is ready and waits for whatever comes
    back first, and why it always ends. */
module FlowRunner {
  import opened Core
  import opened Workflows
  import opened Flows
  import opened FlowInvariant
  import opened FlowRuns
  import opened FlowTheorems
  import opened FlowIsolation
  import opened FlowReport

  // ---- Why it ends ----

  function Sum(s: seq<nat>): nat {
    if s == [] then 0 else s[0] + Sum(s[1..])
  }

  lemma {:induction false} SumLess(s: seq<nat>, i: nat)
    requires i < |s| && s[i] > 0
    ensures Sum(s[i := s[i] - 1]) == Sum(s) - 1
  {
    if i == 0 {
      assert s[0 := s[0] - 1][1..] == s[1..];
    } else {
      assert s[i := s[i] - 1][1..] == s[1..][i - 1 := s[i] - 1];
      SumLess(s[1..], i - 1);
    }
  }

  /** Counts still to be taken off, and steps released or out. */
  function Budget(st: State): nat {
    Sum(st.waiting) + |st.ready| + |st.running|
  }

  lemma {:induction false} GiveUpSpends(st: State, further: seq<nat>)
    requires Within(further, |st.waiting|)
    ensures GiveUpOn(st, further).Some? ==> Sum(GiveUpOn(st, further).value.waiting) <= Sum(st.waiting)
    decreases |further|
  {
    if further != [] && st.waiting[further[0]] > 0 {
      SumLess(st.waiting, further[0]);
      GiveUpSpends(Dropped(st, further[0]), further[1..]);
    }
  }

  lemma {:induction false} HearSpends(wf: Workflow, st: State, step: nat, succeeded: bool, x: nat)
    requires |st.waiting| == |wf| && x < |wf|
    ensures Hear(wf, st, step, succeeded, x).Some? ==> Budget(Hear(wf, st, step, succeeded, x).value) <= Budget(st)
  {
    if st.waiting[x] > 0 {
      SumLess(st.waiting, x);
      var less := st.(waiting := st.waiting[x := st.waiting[x] - 1]);
      GiveUpSpends(less.(abandoned := less.abandoned + [x]), DependentsOf(wf, x));
    }
  }

  lemma {:induction false} ReleaseSpends(wf: Workflow, st: State, step: nat, succeeded: bool, dependents: seq<nat>)
    requires |st.waiting| == |wf| && Within(dependents, |wf|)
    ensures var r := Release(wf, st, step, succeeded, dependents); r.Some? ==> Budget(r.value) <= Budget(st)
    decreases |dependents|
  {
    if dependents != [] {
      HearSpends(wf, st, step, succeeded, dependents[0]);
      var next := Hear(wf, st, step, succeeded, dependents[0]);
      if next.Some? { ReleaseSpends(wf, next.value, step, succeeded, dependents[1..]); }
    }
  }

  lemma {:induction false} LaunchSpends(wf: Workflow, st: State)
    requires Within(st.ready, |wf|)
    ensures Budget(Launch(wf, st)) <= Budget(st)
  {
    var fresh' := map x | x in st.ready :: TaskFor(wf, x, st.outputs);
    DepsSize(st.ready);
    assert fresh'.Keys == Elems(st.ready);
    var both := st.running + fresh';
    assert both.Keys == st.running.Keys + fresh'.Keys;
    assert |st.running.Keys + fresh'.Keys| == |st.running.Keys| + |fresh'.Keys| - |st.running.Keys * fresh'.Keys|;
  }

  /** Every finish uses some of the budget up, whatever was resumed. */
  lemma {:induction false} AdvanceSpends(wf: Workflow, st: State, e: Event)
    requires WellSized(wf, st) && e.step in st.running && Advance(wf, st, e).Some?
    ensures Budget(Advance(wf, st, e).value) < Budget(st)
  {
    var now := Landed(st, e.step, e.result);
    assert now.running.Keys == st.running.Keys - {e.step};
    assert |now.running.Keys| == |st.running.Keys| - 1;
    ReleaseSpends(wf, now, e.step, e.result.success, DependentsOf(wf, e.step));
    LaunchSpends(wf, Complete(wf, st, e.step, e.result).value);
  }

  /** No run goes on for longer than the budget it starts with. */
  lemma {:induction false} RunsEnd(wf: Workflow, out: Task -> Option<DataId>, st: State, events: seq<Event>,
                                   after: State)
    requires Runs(wf, out, st, events, after)
    ensures |events| + Budget(after) <= Budget(st)
    decreases |events|
  {
    hide Budget, Advance;
    if events != [] {
      AdvanceSpends(wf, st, events[0]);
      RunsEnd(wf, out, Advance(wf, st, events[0]).value, events[1..], after);
    }
  }

  // ---- The loop ----

  datatype FlowError = Invalid(stuck: seq<nat>) | Dispatch(step: nat) | Lost | Underflow

  datatype Completion = Came(result: TaskResult) | Unplaced | Gone

  /** Whatever a submission comes back with: a result the work allows, a task no node
      could take, or a task that was lost. */
  method Submit(out: Task -> Option<DataId>, task: Task) returns (c: Completion)
    ensures c.Came? ==> Possible(out, task, c.result)
  {
    if * {
      c := Came(TaskResult(true, out(task)));
    } else if * {
      c := Came(TaskResult(false, None));
    } else if * {
      c := Unplaced;
    } else {
      c := Gone;
    }
  }

  /** The recorded outputs that are still somewhere in the mesh. */
  function StillHeld(recorded: Outputs, held: set<DataId>): Outputs {
    map x | x in recorded && recorded[x] in held :: recorded[x]
  }

  method DiscountLoop(waiting: seq<nat>, dependents: seq<nat>) returns (r: Option<seq<nat>>)
    requires Within(dependents, |waiting|)
    ensures r == Discount(waiting, dependents)
  {
    var now := waiting;
    for i := 0 to |dependents|
      invariant |now| == |waiting|
      invariant Discount(now, dependents[i..]) == Discount(waiting, dependents)
    {
      assert dependents[i..][1..] == dependents[i + 1..];
      if now[dependents[i]] == 0 { return None; }
      now := now[dependents[i] := now[dependents[i]] - 1];
    }
    return Some(now);
  }

  method ResumeLoop(wf: Workflow, order: seq<nat>, recorded: Outputs, held: set<DataId>) returns (r: Option<State>)
    ensures r == Start(wf, order, StillHeld(recorded, held))
  {
    ghost var usable := StillHeld(recorded, held);
    var st := Fresh(wf);
    for i := 0 to |order|
      invariant |st.waiting| == |wf|
      invariant Resume(wf, st, order[i..], usable) == Resume(wf, Fresh(wf), order, usable)
    {
      var step := order[i];
      assert order[i..][1..] == order[i + 1..];
      if step !in recorded { continue; }
      if recorded[step] !in held { continue; }
      var waiting := DiscountLoop(st.waiting, DependentsOf(wf, step));
      if waiting.None? { return None; }
      st := st.(outputs := st.outputs[step := recorded[step]], resumed := st.resumed + [step], waiting := waiting.value);
    }
    return Some(st.(ready := Unblocked(st, |wf|)));
  }

  /** Runs a workflow to its end, whatever order its steps come back in. `recorded` is
      what the journal has for the run and `held` what the catalog can still locate. */
  method RunWorkflow(wf: Workflow, out: Task -> Option<DataId>, recorded: Outputs, held: set<DataId>)
    returns (r: Result<FlowResult, FlowError>, ghost order: seq<nat>, ghost events: seq<Event>, ghost after: State,
             ghost last: Option<Completion>)
    ensures (r.Err? && r.error.Invalid?) <==> !Acyclic(wf)
    ensures r.Err? && r.error.Invalid? ==>
              r.error.stuck != [] && forall x | x in r.error.stuck ::
                x < |wf| && exists d | d in Deps(wf, x) :: d >= |wf| || d in r.error.stuck
    ensures Acyclic(wf) ==> RunOf(wf, out, order, StillHeld(recorded, held), events, after)
    ensures r.Ok? ==> Finished(after) && r.value == Report(wf, after) && Reports(r.value, events)
    ensures r.Ok? ==> r.value.resumed == Done(order, StillHeld(recorded, held))
    ensures r.Ok? && NoDuplicates(wf) && Closed(wf, Done(order, StillHeld(recorded, held))) ==>
              forall x: nat ::
                x in r.value.skipped <==> GivenUpOn(wf, Done(order, StillHeld(recorded, held)), events, x)
    ensures r.Err? && r.error.Dispatch? <==> last == Some(Unplaced)
    ensures r.Err? && r.error.Dispatch? ==> r.error.step in after.running
    ensures r == Err(Lost) <==> last == Some(Gone)
    ensures r == Err(Underflow) ==> WellSized(wf, after) && exists e: Event ::
              e.step in after.running && Possible(out, after.running[e.step], e.result) && Advance(wf, after, e).None?
    ensures Acyclic(wf) && Closed(wf, Done(order, StillHeld(recorded, held))) ==> r != Err(Underflow)
  {
    hide Inv, Advance, RunOf, Topological, Start, Launch, Budget, Complete, Closed, Done, Steady, Acyclic;
    hide Report, Reports, GivenUpOn, NoDuplicates;
    order, events, after, last := [], [], Fresh(wf), None;
    var plan := Order(wf);
    if plan.Err? { return Err(Invalid(plan.error)), order, events, after, last; }
    order := plan.value;
    ghost var usable := StillHeld(recorded, held);
    RunBegins(wf, out, order, usable);
    var begun := ResumeLoop(wf, plan.value, recorded, held);
    var st := Launch(wf, begun.value);
    after := st;
    ghost var quit: set<nat> := {};
    ghost var closed := Closed(wf, Done(order, usable));

    while st.running != map[]
      invariant WellSized(wf, st) && st.ready == [] && after == st
      invariant RunOf(wf, out, order, usable, events, st)
      invariant Elems(st.resumed) == Done(order, usable)
      invariant closed ==> Steady(wf, st, quit)
      invariant last == None
      decreases Budget(st)
    {
      var step :| step in st.running;
      var c := Submit(out, st.running[step]);
      match c {
        case Unplaced => return Err(Dispatch(step)), order, events, after, Some(c);
        case Gone => return Err(Lost), order, events, after, Some(c);
        case Came(result) =>
          ghost var e := Event(step, result);
          var done := CompleteStep(wf, st, step, result);
          LoopStep(wf, out, order, usable, events, st, e);
          if closed { quit := KeepsGoing(wf, order, usable, st, quit, e); }
          if done.None? { return Err(Underflow), order, events, after, None; }
          st := Launch(wf, done.value);
          events, after := events + [e], st;
      }
    }
    ReportsAll(wf, out, order, usable, events, after);
    return Ok(Report(wf, st)), order, events, after, None;
  }

  /** What the loop reports in the end. */
  lemma {:induction false} ReportsAll(wf: Workflow, out: Task -> Option<DataId>, order: seq<nat>, usable: Outputs,
                                      events: seq<Event>, after: State)
    requires RunOf(wf, out, order, usable, events, after) && Finished(after)
    ensures Reports(Report(wf, after), events) && Report(wf, after).resumed == Done(order, usable)
    ensures NoDuplicates(wf) && Closed(wf, Done(order, usable)) ==>
              forall x: nat :: x in Report(wf, after).skipped <==> GivenUpOn(wf, Done(order, usable), events, x)
  {
    hide RunOf, Finished, Report, Reports, GivenUpOn, Closed, NoDuplicates, Done;
    ReportExactly(wf, out, order, usable, events, after);
    if NoDuplicates(wf) && Closed(wf, Done(order, usable)) {
      forall x: nat ensures x in Report(wf, after).skipped <==> GivenUpOn(wf, Done(order, usable), events, x) {
        SkippedExactly(wf, out, order, usable, events, after, x);
      }
    }
  }

  lemma {:induction false} KeepsGoing(wf: Workflow, order: seq<nat>, usable: Outputs, st: State, quit: set<nat>,
                                      e: Event) returns (quit': set<nat>)
    requires Steady(wf, st, quit) && Elems(st.resumed) == Done(order, usable) && Closed(wf, Done(order, usable))
    requires e.step in st.running
    ensures Advance(wf, st, e).Some? && Steady(wf, Advance(wf, st, e).value, quit')
  {
    quit' := Finish(wf, st, quit, e);
  }

  /** Before the first finish. */
  lemma {:induction false} RunBegins(wf: Workflow, out: Task -> Option<DataId>, order: seq<nat>, usable: Outputs)
    requires Topological(wf, order)
    ensures Start(wf, order, usable).Some? && WellSized(wf, Start(wf, order, usable).value)
    ensures var st := Launch(wf, Start(wf, order, usable).value);
            && WellSized(wf, st) && st.ready == [] && Steady(wf, st, {})
            && Elems(st.resumed) == Done(order, usable) && RunOf(wf, out, order, usable, [], st)
  {
    Launched(wf, order, usable);
    hide Inv, Topological;
  }

  /** One iteration extends the run, and what it computes is where the run then is. */
  lemma {:induction false} LoopStep(wf: Workflow, out: Task -> Option<DataId>, order: seq<nat>, usable: Outputs,
                                    events: seq<Event>, st: State, e: Event)
    requires WellSized(wf, st) && st.ready == [] && RunOf(wf, out, order, usable, events, st)
    requires e.step in st.running && Possible(out, st.running[e.step], e.result)
    ensures Advance(wf, st, e).None? <==> Complete(wf, st, e.step, e.result).None?
    ensures Advance(wf, st, e).Some? ==>
              var next := Advance(wf, st, e).value;
              && WellSized(wf, Complete(wf, st, e.step, e.result).value)
              && next == Launch(wf, Complete(wf, st, e.step, e.result).value)
              && WellSized(wf, next) && next.ready == [] && next.resumed == st.resumed
              && RunOf(wf, out, order, usable, events + [e], next)
              && Budget(next) < Budget(st)
  {
    if Advance(wf, st, e).Some? {
      RunsAppend(wf, out, Launch(wf, Start(wf, order, usable).value), events, st, e);
      AdvanceSpends(wf, st, e);
      AdvanceRecords(wf, st, e);
    }
  }

  // ---- How far bad news travels ----

  /** A workflow in which each step reads the one before. */
  predicate IsChain(wf: Workflow) {
    forall x | 0 <= x < |wf| :: wf[x].dependsOn == if x == 0 then [] else [x - 1]
  }

  lemma {:induction false} ChainDependents(wf: Workflow, x: nat)
    requires IsChain(wf) && x + 1 < |wf|
    ensures DependentsOf(wf, x) == [x + 1]
  {
    var r := DependentsOf(wf, x);
    assert forall y :: y in r <==> y == x + 1;
    assert x + 1 in r;
    assert Distinct(r);
    DistinctSize(r);
    assert Elems(r) == {x + 1};
  }

  /** What the first step's failure does to the two after it. */
  function BadNews(st: State): State
    requires |st.waiting| >= 3
  {
    st.(waiting := st.waiting[1 := 0][2 := 0], abandoned := [1, 2])
  }

  lemma {:induction false} ChainFails(wf: Workflow, st: State)
    requires IsChain(wf) && |wf| >= 4 && |st.waiting| == |wf| && st.abandoned == []
    requires st.waiting[1] == 1 && st.waiting[2] == 1
    ensures Release(wf, st, 0, false, DependentsOf(wf, 0)) == Some(BadNews(st))
  {
    ChainDependents(wf, 0);
    ChainDependents(wf, 1);
    var one := st.(waiting := st.waiting[1 := 0], abandoned := [1]);
    assert GiveUpOn(one, [2]) == GiveUpOn(BadNews(st), []) by { assert [2][1..] == [] && [1] + [2] == [1, 2]; }
    assert st.abandoned + [1] == [1] && [1][1..] == [];
    assert Hear(wf, st, 0, false, 1) == Some(BadNews(st));
  }

  /** Bad news travels two steps. When the first step of a chain of four or more fails,
      the run ends with the next two listed as skipped, and every later step neither
      run nor listed. */
  lemma {:induction false} SkippedStopsAtTwo(wf: Workflow, out: Task -> Option<DataId>, order: seq<nat>)
    returns (events: seq<Event>, after: State)
    requires IsChain(wf) && |wf| >= 4 && Topological(wf, order)
    ensures RunOf(wf, out, order, map[], events, after) && Finished(after)
    ensures Report(wf, after).stepsRun == [0] && Report(wf, after).skipped == {1, 2}
  {
    ChainStart(wf, order);
    var st := Launch(wf, Start(wf, order, map[]).value);
    var e := Event(0, TaskResult(false, None));
    var landed := Landed(st, 0, e.result);
    ChainFails(wf, landed);
    events, after := [e], BadNews(landed);
    assert Launch(wf, after) == after by {
      assert after.running + map[] == after.running;
    }
    assert Advance(wf, st, e) == Some(after);
    assert events[1..] == [];
    assert Runs(wf, out, after, [], after);
    OnlyZero(after.results, |wf|);
    assert Elems([1, 2]) == {1, 2};
  }

  lemma {:induction false} ResumeNothing(wf: Workflow, st: State, order: seq<nat>)
    requires |st.waiting| == |wf|
    ensures Resume(wf, st, order, map[]) == Some(st)
    decreases |order|
  {
    if order != [] { ResumeNothing(wf, st, order[1..]); }
  }

  lemma {:induction false} ChainStart(wf: Workflow, order: seq<nat>)
    requires IsChain(wf) && |wf| >= 3
    ensures Start(wf, order, map[]).Some? && WellSized(wf, Start(wf, order, map[]).value)
    ensures var st := Launch(wf, Start(wf, order, map[]).value);
            && |st.waiting| == |wf| && st.waiting[1] == 1 && st.waiting[2] == 1
            && st.running.Keys == {0} && st.results == map[] && st.abandoned == [] && st.ready == []
  {
    ResumeNothing(wf, Fresh(wf), order);
    var st := Start(wf, order, map[]).value;
    assert forall x :: x in st.ready <==> x == 0;
    forall i | 0 <= i < |st.ready| ensures st.ready[i] < |wf| { assert st.ready[i] in st.ready; }
    assert Launch(wf, st).running.Keys == {0};
  }

  lemma {:induction false} OnlyZero(results: map<nat, TaskResult>, bound: nat)
    requires results.Keys == {0} && bound > 0
    ensures StepsRun(results, bound) == [0]
  {
    if bound > 1 { OnlyZero(results, bound - 1); } else { assert StepsRun(results, 0) == []; }
  }
}
