/** Picking a run up where an earlier one stopped. */
module FlowResume {
  import opened Core
  import opened Workflows
  import opened Ancestry
  import opened Flows
  import opened FlowInvariant
  import opened FlowRuns
  import opened FlowTheorems
  import opened FlowIsolation
  import opened FlowLaws

  // ---- What an earlier run leaves behind ----

  /** The outputs in `usable` are those of the sequential evaluation, and come with
      everything they depend on. */
  ghost predicate Sound(wf: Workflow, out: Task -> Option<DataId>, order: seq<nat>, usable: Outputs)
    requires Within(order, |wf|)
  {
    Closed(wf, usable.Keys) && forall x | x in usable :: SameAt(usable, SeqEval(wf, out, order), x)
  }

  /** What a step's result names is what later steps read. */
  predicate OutputsMatch(st: State) {
    && st.outputs.Keys <= st.results.Keys + Elems(st.resumed)
    && (forall x | x in st.results :: SameAt(st.outputs, Put(map[], x, st.results[x].outputId), x))
  }

  lemma {:induction false} MatchesAdvance(wf: Workflow, st: State, e: Event)
    requires WellSized(wf, st) && Advance(wf, st, e).Some? && OutputsMatch(st)
    requires e.step !in st.results && e.step !in st.resumed
    ensures OutputsMatch(Advance(wf, st, e).value)
  {
    AdvanceRecords(wf, st, e);
    hide Advance;
  }

  lemma {:induction false} RunMatches(wf: Workflow, out: Task -> Option<DataId>, st: State, quit: set<nat>,
                                      events: seq<Event>, after: State)
    requires Steady(wf, st, quit) && Closed(wf, Elems(st.resumed)) && OutputsMatch(st)
    requires Runs(wf, out, st, events, after)
    ensures OutputsMatch(after)
    decreases |events|
  {
    hide Inv;
    if events != [] {
      var quit1 := Finish(wf, st, quit, events[0]);
      MatchesAdvance(wf, st, events[0]);
      hide Advance, OutputsMatch, Steady, Closed;
      RunMatches(wf, out, Advance(wf, st, events[0]).value, quit1, events[1..], after);
    }
  }

  /** `x` succeeded with output `id` in a run that stopped in `st`, and nothing upstream of it failed there. */
  ghost predicate CleanRecord(wf: Workflow, st: State, x: nat, id: DataId) {
    && x in st.results && st.results[x] == TaskResult(true, Some(id))
    && (forall a | Failed(st, a) :: !Ancestor(wf, a, x))
  }

  /** Whatever else failed in a run that itself resumed from sound outputs, and wherever
      it stopped, a clean record of it carries the sequential evaluation's output. */
  lemma {:induction false} CleanRecordIsSound(wf: Workflow, out: Task -> Option<DataId>, order: seq<nat>, before: Outputs,
                           events: seq<Event>, stopped: State, x: nat, id: DataId)
    requires RunOf(wf, out, order, before, events, stopped) && Sound(wf, out, order, before)
    requires CleanRecord(wf, stopped, x, id)
    ensures x in SeqEval(wf, out, order) && SeqEval(wf, out, order)[x] == id
  {
    hide Inv, Runs, Start, Launch, EvalFirst;
    var v := SeqEval(wf, out, order);
    SeqEvalFixpoint(wf, out, order);
    DoneIsUsable(wf, order, before);
    Launched(wf, order, before);
    var st := Launch(wf, Start(wf, order, before).value);
    RunMatches(wf, out, st, {}, events, stopped);
    var quit := RunKeeps(wf, out, st, {}, events, stopped);
    Apart(wf, stopped, quit);
    var s := Upstream(wf, x);
    UpstreamClosed(wf, order, x);
    forall y | y in s && y in stopped.results ensures stopped.results[y].success {
      assert Failed(stopped, y) ==> !Ancestor(wf, y, x);
    }
    FaithfulRun(wf, out, order, before, v, events, stopped, s);
    assert SameAt(stopped.outputs, Put(map[], x, stopped.results[x].outputId), x);
    assert SameAt(stopped.outputs, v, x);
  }

  /** Records of a single attempt that are closed under dependencies are clean. */
  lemma {:induction false} OneAttemptIsClean(wf: Workflow, order: seq<nat>, st: State, usable: Outputs, x: nat)
    requires Topological(wf, order) && Closed(wf, usable.Keys) && x in usable
    requires forall y | y in usable :: y in st.results && st.results[y] == TaskResult(true, Some(usable[y]))
    ensures CleanRecord(wf, st, x, usable[x])
  {
    forall a | Failed(st, a) ensures !Ancestor(wf, a, x) {
      if Ancestor(wf, a, x) {
        var i := PlaceOf(wf, order, x);
        UpstreamWithin(wf, order, usable.Keys, i, a);
      }
    }
  }

  /** A run that resumes from sound outputs, and in which nothing fails, ends with the
      outputs of the sequential evaluation. */
  lemma {:induction false} SoundRunIsRight(wf: Workflow, out: Task -> Option<DataId>, order: seq<nat>, usable: Outputs,
                                           events: seq<Event>, after: State)
    requires NoDuplicates(wf) && RunOf(wf, out, order, usable, events, after) && Sound(wf, out, order, usable)
    requires Finished(after) && AllSucceed(events)
    ensures after.outputs == SeqEval(wf, out, order)
    ensures Elems(after.resumed) == usable.Keys && Elems(after.resumed) !! after.results.Keys
    ensures Elems(after.resumed) + after.results.Keys == Below(|wf|)
  {
    RunHasOrder(wf, out, order, usable, events, after);
    hide Inv, RunOf, EvalFirst, SameAt, Fixpoint;
    DoneIsUsable(wf, order, usable);
    ResumedRun(wf, out, order, usable, events, after);
    AllClosed(wf, order);
    var v := SeqEval(wf, out, order);
    SeqEvalFixpoint(wf, out, order);
    FaithfulRun(wf, out, order, usable, v, events, after, Below(|wf|));
    SameEverywhere(after.outputs, v, Below(|wf|));
  }

  /** Every step is resumed or run, never both, and none is left out. */
  lemma {:induction false} ResumedRun(wf: Workflow, out: Task -> Option<DataId>, order: seq<nat>, usable: Outputs,
                   events: seq<Event>, after: State)
    requires NoDuplicates(wf) && Closed(wf, Done(order, usable))
    requires RunOf(wf, out, order, usable, events, after) && Finished(after) && AllSucceed(events)
    ensures FailureFree(after, Below(|wf|))
    ensures Elems(after.resumed) == Done(order, usable)
    ensures Elems(after.resumed) !! after.results.Keys
    ensures Elems(after.resumed) + after.results.Keys == Below(|wf|)
  {
    hide Inv, RunOf;
    RunHasOrder(wf, out, order, usable, events, after);
    var quit := SettledRun(wf, out, order, usable, events, after);
    ResumedSuccess(wf, out, order, usable, events, after);
    AllClosed(wf, order);
    forall x | x in Below(|wf|) ensures x in after.results.Keys + Elems(after.resumed) {
      var i := PlaceOf(wf, order, x);
      AllReached(wf, after, quit, order, Below(|wf|), i);
    }
    Apart(wf, after, quit);
    forall x | x in after.results ensures x !in after.resumed { NotResumed(wf, after, quit, x); }
  }

  lemma {:induction false} DoneIsUsable(wf: Workflow, order: seq<nat>, usable: Outputs)
    requires Topological(wf, order) && Closed(wf, usable.Keys)
    ensures Done(order, usable) == usable.Keys
  {
    CoversAll(|wf|, order);
    forall x | x in usable ensures x in order { assert x in Below(|wf|) && x in Elems(order); }
  }

  lemma {:induction false} ResumedSuccess(wf: Workflow, out: Task -> Option<DataId>, order: seq<nat>, usable: Outputs,
                       events: seq<Event>, after: State)
    requires RunOf(wf, out, order, usable, events, after) && AllSucceed(events)
    requires Closed(wf, Done(order, usable))
    ensures FailureFree(after, Below(|wf|)) && after.abandoned == []
  {
    hide Inv, Runs, Start, Launch;
    Launched(wf, order, usable);
    var st := Launch(wf, Start(wf, order, usable).value);
    var quit := RunKeeps(wf, out, st, {}, events, after);
    RunOnce(wf, out, st, {}, events, after);
    RunRecords(wf, out, st, {}, events, after);
    forall x | x in after.results ensures after.results[x].success {
      assert x in Steps(events);
      var i :| 0 <= i < |events| && Steps(events)[i] == x;
      assert events[i] in events;
    }
  }

  // ---- Exactly when resuming is safe ----

  /** A step the earlier run finished has been submitted again. */
  predicate Rerun(st: State) {
    exists x | x in Elems(st.resumed) :: x in Submitted(st)
  }

  /** The run can go no further: nothing is out, or the next success to come back
      would take a counter below zero. */
  ghost predicate AtEnd(wf: Workflow, out: Task -> Option<DataId>, st: State)
    requires WellSized(wf, st)
  {
    || Finished(st)
    || exists e: Event :: && e.step in st.running && Possible(out, st.running[e.step], e.result)
                          && e.result.success && Advance(wf, st, e).None?
  }

  /** Nothing finished before has been submitted again, nothing failed, and the counters are exact. */
  predicate Untroubled(wf: Workflow, st: State) {
    Steady(wf, st, {}) && st.abandoned == [] && FailureFree(st, st.results.Keys)
  }

  lemma {:induction false} UntroubledOrRerun(wf: Workflow, st: State, e: Event)
    requires WellSized(wf, st) && e.step in st.running && e.result.success && Advance(wf, st, e).Some?
    requires Rerun(st) || Untroubled(wf, st)
    ensures var next := Advance(wf, st, e).value;
            WellSized(wf, next) && next.resumed == st.resumed && (Rerun(next) || Untroubled(wf, next))
  {
    hide Inv;
    var next := Advance(wf, st, e).value;
    AdvanceRecords(wf, st, e);
    if Rerun(st) {
      var x :| x in Elems(st.resumed) && x in Submitted(st);
      RunningStays(wf, st, e, x);
      assert x in Submitted(next);
    } else {
      assert e.step in Submitted(st) && e.step !in Elems(st.resumed);
      var quit := AdvanceKeeps(wf, st, {}, e);
    }
  }

  lemma {:induction false} SteadyUntilRerun(wf: Workflow, out: Task -> Option<DataId>, st: State,
                                            events: seq<Event>, after: State)
    requires Runs(wf, out, st, events, after) && AllSucceed(events)
    requires WellSized(wf, st) && (Rerun(st) || Untroubled(wf, st))
    ensures WellSized(wf, after) && after.resumed == st.resumed
    ensures Rerun(after) || Untroubled(wf, after)
    decreases |events|
  {
    hide Untroubled, Rerun, Advance;
    if events != [] {
      UntroubledOrRerun(wf, st, events[0]);
      SteadyUntilRerun(wf, out, Advance(wf, st, events[0]).value, events[1..], after);
    }
  }

  /** With nothing failing, a resumed run reaches its end without running a finished
      step again and without a counter going below zero exactly when the resumed
      steps are closed under dependencies. */
  lemma {:induction false} ResumeIsSafeIffClosed(wf: Workflow, out: Task -> Option<DataId>, order: seq<nat>, usable: Outputs,
                              events: seq<Event>, after: State)
    requires NoDuplicates(wf) && RunOf(wf, out, order, usable, events, after) && AllSucceed(events)
    requires WellSized(wf, after) && AtEnd(wf, out, after)
    ensures Finished(after) && !Rerun(after) <==> Closed(wf, Done(order, usable))
  {
    hide Inv, Runs;
    Launched(wf, order, usable);
    var st := Launch(wf, Start(wf, order, usable).value);
    SteadyUntilRerun(wf, out, st, events, after);
    hide RunOf, Start, Launch;
    if Closed(wf, Done(order, usable)) {
      var quit := SettledRun(wf, out, order, usable, events, after);
      forall x | x in Submitted(after) ensures x !in Elems(after.resumed) { NotResumed(wf, after, quit, x); }
      if !Finished(after) {
        var e: Event :| e.step in after.running && e.result.success && Advance(wf, after, e).None?;
        var quit' := Finish(wf, after, quit, e);
      }
    } else if Finished(after) && !Rerun(after) {
      CleanEndIsClosed(wf, order, after);
    }
  }

  /** A run that ended without running anything again had a closed set to resume. */
  lemma {:induction false} CleanEndIsClosed(wf: Workflow, order: seq<nat>, st: State)
    requires NoDuplicates(wf) && Topological(wf, order) && Steady(wf, st, {}) && Finished(st)
    requires st.abandoned == [] && FailureFree(st, st.results.Keys)
    ensures Closed(wf, Elems(st.resumed))
  {
    AllClosed(wf, order);
    forall x | x in Elems(st.resumed) ensures x < |wf| && Deps(wf, x) <= Elems(st.resumed) {
      forall d | d in Deps(wf, x) ensures d in Sources(st, {}) {
        assert x in Below(|wf|) && d in Below(|wf|);
        var i := PlaceOf(wf, order, d);
        AllReached(wf, st, {}, order, Below(|wf|), i);
      }
      ZeroMeansHeard(wf, st.waiting, Sources(st, {}), x);
      assert x !in Active(st);
    }
  }
}
