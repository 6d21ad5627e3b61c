/** Histories in which only the attempt that ends has a closed set to resume. Those before
    it may have resumed anything: then a record is right, whatever failed, exactly where of
    any two dependencies of a step one is a dependency of the other. */
module FlowDirect {
  import opened Core
  import opened Workflows
  import opened Ancestry
  import opened Flows
  import opened FlowInvariant
  import opened FlowRuns
  import opened FlowTheorems
  import opened FlowIsolation
  import opened FlowLaws
  import opened FlowResume
  import opened FlowHistory
  import opened FlowTally

  // ---- Nothing is submitted past a failure ----

  /** A dependency of a step just released was done. */
  lemma {:induction false} ReleasedClean(wf: Workflow, order: seq<nat>, st: State, next: State, told: set<nat>,
                                         e: Event, x: nat, d: nat)
    requires NoDuplicates(wf) && Topological(wf, order) && DirectlyChained(wf)
    requires Even(wf, st, told) && Clean(wf, st) && Even(wf, next, told + {e.step}) && e.step !in told
    requires e.step in st.running && e.step !in st.results && e.step < |wf| && e.result.success
    requires next.resumed == st.resumed && next.results == st.results[e.step := e.result]
    requires x in Active(next) && x < |wf| && e.step in Deps(wf, x) && d in Deps(wf, x)
    ensures Settled(next, d)
  {
    hide Even, NoDuplicates, Topological;
    HeardOnce(wf, order, next, told + {e.step}, x);
    if d != e.step && d !in Elems(st.resumed) {
      assert DirectAt(wf, x) && Direct(wf, e.step, d);
      if d in Deps(wf, e.step) {
        assert e.step in Submitted(st);
        SettledStays(st, next, e, d);
      } else {
        ToldActive(wf, st, told, d);
        HeardOnce(wf, order, st, told, d);
      }
    }
  }

  lemma {:induction false} ToldActive(wf: Workflow, st: State, told: set<nat>, x: nat)
    requires Even(wf, st, told) && x in told
    ensures x in Active(st) && x < |wf|
  {}

  lemma {:induction false} RunningActive(wf: Workflow, st: State, told: set<nat>, x: nat)
    requires Even(wf, st, told) && x in st.running
    ensures x in Active(st) && x < |wf| && x !in st.results
  {}

  /** Every finish keeps it so, whatever was resumed. */
  lemma {:induction false} FinishClean(wf: Workflow, order: seq<nat>, st: State, told: set<nat>, e: Event)
    returns (told': set<nat>)
    requires NoDuplicates(wf) && Topological(wf, order) && DirectlyChained(wf)
    requires Even(wf, st, told) && Clean(wf, st) && e.step in st.running
    requires WellSized(wf, st) && Advance(wf, st, e).Some?
    ensures Even(wf, Advance(wf, st, e).value, told') && Clean(wf, Advance(wf, st, e).value)
  {
    assert st.ready == [];
    hide Even, NoDuplicates, Topological, DirectlyChained;
    var next := Advance(wf, st, e).value;
    told' := AdvanceEven(wf, order, st, told, e);
    RunningActive(wf, st, told, e.step);
    AdvanceRecords(wf, st, e);
    forall x, d | x in Submitted(next) && x < |wf| && d in Deps(wf, x) ensures Settled(next, d) {
      if x in Submitted(st) {
        SettledStays(st, next, e, d);
      } else {
        ReleasedNow(wf, st, e, x);
        hide Advance, Clean;
        RunningActive(wf, next, told', x);
        assert x in DependentsOf(wf, e.step);
        ReleasedClean(wf, order, st, next, told, e, x, d);
      }
    }
  }

  // ---- So whatever comes back is right ----

  /** Everything done has the reference output, and everything out is the reference task. */
  ghost predicate Right(wf: Workflow, st: State, v: Outputs) {
    && st.outputs.Keys <= st.results.Keys + Elems(st.resumed)
    && (forall x | Settled(st, x) :: SameAt(st.outputs, v, x))
    && (forall x | x in st.running :: x < |wf| && st.running[x] == TaskFor(wf, x, v))
  }

  /** What came back right is recorded right. */
  lemma {:induction false} RightLands(wf: Workflow, out: Task -> Option<DataId>, v: Outputs, st: State, next: State,
                                      e: Event)
    requires Right(wf, st, v) && Fixpoint(wf, out, v) && e.step in st.running && e.step !in st.results
    requires Possible(out, st.running[e.step], e.result)
    requires next.resumed == st.resumed && next.results == st.results[e.step := e.result]
    requires next.outputs == Put(st.outputs, e.step, e.result.outputId)
    ensures next.outputs.Keys <= next.results.Keys + Elems(next.resumed)
    ensures forall x | Settled(next, x) :: SameAt(next.outputs, v, x)
    ensures e.result.success ==> SameAt(v, Put(map[], e.step, e.result.outputId), e.step)
  {
    hide TaskFor;
    assert SameAt(v, Put(map[], e.step, out(TaskFor(wf, e.step, v))), e.step);
    forall x | Settled(next, x) ensures SameAt(next.outputs, v, x) {
      if x != e.step { assert Settled(st, x); }
    }
  }

  lemma {:induction false} FinishRight(wf: Workflow, out: Task -> Option<DataId>, v: Outputs, st: State,
                                       e: Event)
    requires WellSized(wf, st) && Advance(wf, st, e).Some? && Clean(wf, Advance(wf, st, e).value)
    requires Right(wf, st, v) && Fixpoint(wf, out, v) && e.step in st.running && e.step !in st.results
    requires Possible(out, st.running[e.step], e.result)
    ensures Right(wf, Advance(wf, st, e).value, v)
    ensures e.result.success ==> SameAt(v, Put(map[], e.step, e.result.outputId), e.step)
  {
    AdvanceRecords(wf, st, e);
    var next := Advance(wf, st, e).value;
    hide Advance;
    RightLands(wf, out, v, st, next, e);
    forall x | x in next.running ensures x < |wf| && next.running[x] == TaskFor(wf, x, v) {
      if !(x in st.running && next.running[x] == st.running[x]) {
        SubmitsRight(wf, v, next, x);
      }
    }
  }

  lemma {:induction false} SubmitsRight(wf: Workflow, v: Outputs, st: State, x: nat)
    requires Clean(wf, st) && x in st.running && x < |wf| && forall y | Settled(st, y) :: SameAt(st.outputs, v, y)
    ensures TaskFor(wf, x, st.outputs) == TaskFor(wf, x, v)
  {
    forall d | d in wf[x].dependsOn ensures SameAt(st.outputs, v, d) {
      assert d in Deps(wf, x) && x in Submitted(st) && Settled(st, d);
    }
    InputsAgree(wf[x].task.inputs, wf[x].dependsOn, st.outputs, v);
  }

  /** Every success of the run leaves the reference output. */
  lemma {:induction false} RunRight(wf: Workflow, out: Task -> Option<DataId>, order: seq<nat>, v: Outputs,
                                    st: State, told: set<nat>, events: seq<Event>, after: State, x: nat, id: DataId)
    requires NoDuplicates(wf) && Topological(wf, order) && DirectlyChained(wf)
    requires Even(wf, st, told) && Clean(wf, st) && Right(wf, st, v) && Fixpoint(wf, out, v)
    requires Runs(wf, out, st, events, after) && CameBack(events, x, id)
    ensures x in v && v[x] == id
    decreases |events|
  {
    hide Even, Clean, Right, Fixpoint, NoDuplicates, Topological, DirectlyChained, Advance, Possible;
    var e := events[0];
    RunningActive(wf, st, told, e.step);
    var told' := FinishClean(wf, order, st, told, e);
    FinishRight(wf, out, v, st, e);
    if e != Event(x, TaskResult(true, Some(id))) {
      assert CameBack(events[1..], x, id);
      RunRight(wf, out, order, v, Advance(wf, st, e).value, told', events[1..], after, x, id);
    }
  }

  lemma {:induction false} StartRight(wf: Workflow, order: seq<nat>, usable: Outputs, v: Outputs)
    requires Topological(wf, order) && forall x | x in usable :: SameAt(usable, v, x)
    ensures Start(wf, order, usable).Some? && WellSized(wf, Start(wf, order, usable).value)
    ensures Right(wf, Launch(wf, Start(wf, order, usable).value), v)
  {
    Launched(wf, order, usable);
    CleanStart(wf, order, usable);
    StartInv(wf, order, usable);
    var start := Start(wf, order, usable).value;
    hide Start, Inv, Clean, Topological;
    var st := Launch(wf, start);
    forall x | x in Done(order, usable) ensures SameAt(st.outputs, v, x) { assert SameAt(usable, v, x); }
    forall x | x in st.running ensures x < |wf| && st.running[x] == TaskFor(wf, x, v) {
      assert x in start.ready;
      SubmitsRight(wf, v, st, x);
    }
  }

  /** From outputs that are right, closed under dependencies or not, a run records outputs
      that are right, whatever fails in it. */
  lemma {:induction false} DirectRecord(wf: Workflow, out: Task -> Option<DataId>, order: seq<nat>, usable: Outputs,
                                        events: seq<Event>, after: State, x: nat, id: DataId)
    requires NoDuplicates(wf) && DirectlyChained(wf) && Within(order, |wf|)
    requires RunOf(wf, out, order, usable, events, after) && CameBack(events, x, id)
    requires forall y | y in usable :: SameAt(usable, SeqEval(wf, out, order), y)
    ensures x in SeqEval(wf, out, order) && SeqEval(wf, out, order)[x] == id
  {
    var v := SeqEval(wf, out, order);
    SeqEvalFixpoint(wf, out, order);
    hide EvalFirst, Runs, Start, Launch, Topological, NoDuplicates, DirectlyChained, CameBack, Even, Right, Clean;
    StartRight(wf, order, usable, v);
    StartEven(wf, order, usable);
    CleanStart(wf, order, usable);
    var st := Launch(wf, Start(wf, order, usable).value);
    RunRight(wf, out, order, v, st, {}, events, after, x, id);
  }

  // ---- Through every attempt ----

  /** Whatever an attempt finds is right. */
  lemma {:induction false} FindsRight(wf: Workflow, work: Work, order: seq<nat>, name: Named, h: seq<Attempt>, n: nat)
    requires NoDuplicates(wf) && Topological(wf, order) && DirectlyChained(wf) && Within(order, |wf|)
    requires History(wf, work, order, name, h) && n < |h|
    ensures forall x | x in UsableAt(name, h, n) ::
              SameAt(UsableAt(name, h, n), SeqEval(wf, Does(work), order), x)
    decreases n, 0
  {
    hide Topological, History, EvalFirst, UsableAt, DirectlyChained, NoDuplicates, CameBack, Within, Does;
    var usable := UsableAt(name, h, n);
    forall x | x in usable ensures SameAt(usable, SeqEval(wf, Does(work), order), x) {
      var j := UsableCame(name, h, n, x);
      RecordsRight(wf, work, order, name, h, j, x, usable[x]);
    }
  }

  /** Whatever an attempt records is. */
  lemma {:induction false} RecordsRight(wf: Workflow, work: Work, order: seq<nat>, name: Named, h: seq<Attempt>,
                                        j: nat, x: nat, id: DataId)
    requires NoDuplicates(wf) && Topological(wf, order) && DirectlyChained(wf) && Within(order, |wf|)
    requires History(wf, work, order, name, h) && j < |h| && CameBack(h[j].events, x, id)
    ensures x in SeqEval(wf, Does(work), order) && SeqEval(wf, Does(work), order)[x] == id
    decreases j, 1
  {
    hide Topological, History, EvalFirst, UsableAt, DirectlyChained, NoDuplicates, CameBack, Within, SameShape, RunOf;
    AttemptRuns(wf, work, order, name, h, j);
    FindsRight(wf, work, order, name, h, j);
    SameGraph(wf, h[j].wf, order, {});
    SameDirect(wf, h[j].wf);
    DirectRecord(h[j].wf, Does(work), order, UsableAt(name, h, j), h[j].events, h[j].stopped, x, id);
  }

  /** There, an attempt that ends well from a closed set has the outputs of a run never
      interrupted, whatever was resumed, failed or lost before it. */
  lemma {:induction false} DirectPreserves(wf: Workflow, work: Work)
    requires NoDuplicates(wf) && DirectlyChained(wf)
    ensures Preserves(wf, work)
  {
    hide History, EvalFirst, DirectlyChained, NoDuplicates, EndsWell, UsableAt, Closed;
    forall order, name, h: seq<Attempt>, n |
      && Topological(wf, order) && 0 <= n < |h| && History(wf, work, order, name, h)
      && Closed(wf, UsableAt(name, h, n).Keys) && EndsWell(h[n])
      ensures h[n].stopped.outputs == SeqEval(wf, Does(work), order)
    {
      DirectEndsRight(wf, work, order, name, h, n);
    }
  }

  lemma {:induction false} DirectEndsRight(wf: Workflow, work: Work, order: seq<nat>, name: Named, h: seq<Attempt>,
                                           n: nat)
    requires NoDuplicates(wf) && Topological(wf, order) && DirectlyChained(wf) && Within(order, |wf|)
    requires History(wf, work, order, name, h) && n < |h|
    requires Closed(wf, UsableAt(name, h, n).Keys) && EndsWell(h[n])
    ensures h[n].stopped.outputs == SeqEval(wf, Does(work), order)
  {
    hide Topological, History, RunOf, EvalFirst, UsableAt, DirectlyChained, NoDuplicates, SameShape, Closed, Within;
    AttemptRuns(wf, work, order, name, h, n);
    FindsRight(wf, work, order, name, h, n);
    SameGraph(wf, h[n].wf, order, UsableAt(name, h, n).Keys);
    SameGraph(wf, h[n].wf, order, {});
    SoundRunIsRight(h[n].wf, Does(work), order, UsableAt(name, h, n), h[n].events, h[n].stopped);
  }
}
