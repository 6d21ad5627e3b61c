/** A join that ran although one of its dependencies had failed is recorded too, and a
    later attempt may take the record for the join's output. */
module FlowPoison {
  import opened Core
  import opened Workflows
  import opened Ancestry
  import opened Flows
  import opened FlowInvariant
  import opened FlowRuns
  import opened FlowTheorems
  import opened FlowIsolation
  import opened FlowLaws
  import opened FlowResume
  import opened FlowRunner
  import opened FlowHistory
  import opened Journals
  import Caches

  // ---- Work that tells one step from another ----

  /** What a task is, but for what it reads. */
  type Label = (string, DataId, Option<DataId>)

  function LabelOf(k: Caches.WorkKey): Label {
    (k.kind, k.payload, k.moduleId)
  }

  function StepLabel(wf: Workflow, x: nat): Label
    requires x < |wf|
  {
    LabelOf(Caches.KeyOf(wf[x].task))
  }

  /** No two steps are the same work. Two that were would have the same output, and either
      would do for the other. */
  predicate Distinguishable(wf: Workflow) {
    forall x: nat, y: nat | x < y < |wf| :: StepLabel(wf, x) != StepLabel(wf, y)
  }

  const Whole := DataId([])
  const Partial := DataId([0])
  const Kept := DataId([1])

  function LabelsOf(wf: Workflow, steps: set<nat>): set<Label> {
    set x | x in steps && x < |wf| :: StepLabel(wf, x)
  }

  /** Work in which `a` produces `mark`, `j` says whether it has read it, and what the steps
      in `kept` produce is told from everything else. */
  function MarkedWork(wf: Workflow, a: nat, j: nat, mark: DataId, kept: set<nat>): Work
    requires a < |wf| && j < |wf|
  {
    var la, lj, kept := StepLabel(wf, a), StepLabel(wf, j), LabelsOf(wf, kept);
    (k: Caches.WorkKey) =>
      Some(if LabelOf(k) == la then mark
           else if LabelOf(k) == lj then if mark in k.inputs then Whole else Partial
           else if LabelOf(k) in kept then Kept
           else Whole)
  }

  lemma {:induction false} FreshId(ids: seq<DataId>) returns (n: nat)
    ensures n >= 2 && forall id | id in ids :: |id.content| < n
  {
    if ids == [] { return 2; }
    n := FreshId(ids[1..]);
    n := if |ids[0].content| < n then n else |ids[0].content| + 1;
    assert ids == [ids[0]] + ids[1..];
  }

  function Mark(n: nat): DataId {
    DataId(seq(n, _ => 0 as byte))
  }

  /** What is needed of it: a step `a` that `j` reads, a mark nothing else makes, and an
      output always. */
  ghost predicate Traced(wf: Workflow, work: Work, a: nat, j: nat, mark: DataId) {
    && a < |wf| && j < |wf| && a != j && a in Deps(wf, j) && mark !in wf[j].task.inputs
    && (forall k :: work(k).Some?)
    && (forall k, x: nat | x < |wf| && LabelOf(k) == StepLabel(wf, x) ::
          && (x == a <==> work(k) == Some(mark))
          && (x == j ==> work(k) == Some(if mark in k.inputs then Whole else Partial)))
  }

  lemma {:induction false} AlwaysLeaves(wf: Workflow, work: Work, a: nat, j: nat, mark: DataId)
    requires Traced(wf, work, a, j, mark)
    ensures forall k :: work(k).Some?
  {}

  lemma {:induction false} TaskLabel(wf: Workflow, x: nat, outputs: Outputs)
    requires x < |wf|
    ensures LabelOf(Caches.KeyOf(TaskFor(wf, x, outputs))) == StepLabel(wf, x)
    ensures Caches.KeyOf(TaskFor(wf, x, outputs)).inputs == AddInputs(wf[x].task.inputs, wf[x].dependsOn, outputs)
  {}

  /** Done properly, the join has read the mark. */
  lemma {:induction false} RightAnswer(wf: Workflow, work: Work, order: seq<nat>, a: nat, j: nat, mark: DataId)
    requires Topological(wf, order) && Traced(wf, work, a, j, mark) && Within(order, |wf|)
    ensures var v := SeqEval(wf, Does(work), order); j in v && v[j] == Whole
  {
    var out := Does(work);
    var v := SeqEval(wf, out, order);
    SeqEvalFixpoint(wf, out, order);
    hide EvalFirst, AddInputs, Topological;
    TaskLabel(wf, a, v);
    TaskLabel(wf, j, v);
    assert SameAt(v, Put(map[], a, out(TaskFor(wf, a, v))), a);
    assert SameAt(v, Put(map[], j, out(TaskFor(wf, j, v))), j);
    assert a in v && v[a] == mark;
    InputsAre(wf[j].task.inputs, wf[j].dependsOn, v, mark);
  }

  // ---- Whatever is out is a step of the workflow ----

  predicate AsThemselves(wf: Workflow, st: State) {
    forall x | x in st.running :: x < |wf| && LabelOf(Caches.KeyOf(st.running[x])) == StepLabel(wf, x)
  }

  lemma {:induction false} AdvanceAsThemselves(wf: Workflow, st: State, e: Event)
    requires AsThemselves(wf, st) && WellSized(wf, st) && Advance(wf, st, e).Some?
    ensures AsThemselves(wf, Advance(wf, st, e).value)
  {
    AdvanceRecords(wf, st, e);
    var next := Advance(wf, st, e).value;
    hide Advance;
    forall x | x in next.running
      ensures x < |wf| && LabelOf(Caches.KeyOf(next.running[x])) == StepLabel(wf, x)
    {
      if !(x in st.running && next.running[x] == st.running[x]) { TaskLabel(wf, x, next.outputs); }
    }
  }

  lemma {:induction false} StartAsThemselves(wf: Workflow, order: seq<nat>, usable: Outputs)
    requires Topological(wf, order)
    ensures Start(wf, order, usable).Some? && WellSized(wf, Start(wf, order, usable).value)
    ensures AsThemselves(wf, Launch(wf, Start(wf, order, usable).value))
  {
    StartInv(wf, order, usable);
    var st := Start(wf, order, usable).value;
    hide Start, Inv, Topological;
    forall x | x in Launch(wf, st).running
      ensures x < |wf| && LabelOf(Caches.KeyOf(Launch(wf, st).running[x])) == StepLabel(wf, x)
    {
      assert x in st.ready;
      TaskLabel(wf, x, st.outputs);
    }
  }

  /** `e` is a step of the workflow coming back, with what such work produces. */
  ghost predicate MadeBy(wf: Workflow, work: Work, e: Event) {
    && e.step < |wf|
    && (e.result.success ==> exists k :: LabelOf(k) == StepLabel(wf, e.step) && e.result.outputId == work(k))
  }

  lemma {:induction false} EventsMade(wf: Workflow, work: Work, st: State, events: seq<Event>, after: State, e: Event)
    requires Runs(wf, Does(work), st, events, after) && AsThemselves(wf, st) && e in events
    ensures MadeBy(wf, work, e)
    decreases |events|
  {
    hide Advance;
    if e == events[0] {
      var k := Caches.KeyOf(st.running[e.step]);
      assert LabelOf(k) == StepLabel(wf, e.step);
    } else {
      assert e in events[1..];
      AdvanceAsThemselves(wf, st, events[0]);
      EventsMade(wf, work, Advance(wf, st, events[0]).value, events[1..], after, e);
    }
  }

  /** In any run, whatever it resumed. */
  lemma {:induction false} RunMade(wf: Workflow, work: Work, order: seq<nat>, usable: Outputs, events: seq<Event>,
                                   after: State)
    requires RunOf(wf, Does(work), order, usable, events, after)
    ensures forall e | e in events :: MadeBy(wf, work, e)
  {
    hide Runs, Start, Launch, Does, MadeBy;
    StartAsThemselves(wf, order, usable);
    forall e | e in events ensures MadeBy(wf, work, e) {
      EventsMade(wf, work, Launch(wf, Start(wf, order, usable).value), events, after, e);
    }
  }

  // ---- Done without, it has not ----

  /** The mark is nowhere: `a` never succeeded. */
  predicate Untainted(wf: Workflow, st: State, j: nat, mark: DataId) {
    && AsThemselves(wf, st)
    && (forall x | x in st.outputs :: st.outputs[x] != mark)
    && (j in st.running ==> mark !in st.running[j].inputs)
  }

  lemma {:induction false} SubmitsUntainted(wf: Workflow, outputs: Outputs, j: nat, mark: DataId)
    requires j < |wf| && mark !in wf[j].task.inputs && forall x | x in outputs :: outputs[x] != mark
    ensures mark !in TaskFor(wf, j, outputs).inputs
  {
    InputsAre(wf[j].task.inputs, wf[j].dependsOn, outputs, mark);
  }

  lemma {:induction false} AdvanceUntainted(wf: Workflow, work: Work, a: nat, j: nat, mark: DataId, st: State, e: Event)
    requires Traced(wf, work, a, j, mark) && Untainted(wf, st, j, mark) && WellSized(wf, st) && Advance(wf, st, e).Some?
    requires e.step in st.running && Possible(Does(work), st.running[e.step], e.result)
    requires e.step == a ==> !e.result.success
    ensures Untainted(wf, Advance(wf, st, e).value, j, mark)
  {
    AdvanceAsThemselves(wf, st, e);
    AdvanceRecords(wf, st, e);
    var next := Advance(wf, st, e).value;
    hide Advance;
    ComesUntainted(wf, work, a, j, mark, st.running[e.step], e);
    assert forall x | x in next.outputs :: next.outputs[x] != mark;
    hide Traced, Does, Possible;
    if j in next.running && !(j in st.running && next.running[j] == st.running[j]) {
      SubmitsUntainted(wf, next.outputs, j, mark);
    }
  }

  /** Only `a` makes the mark. */
  lemma {:induction false} ComesUntainted(wf: Workflow, work: Work, a: nat, j: nat, mark: DataId, task: Task, e: Event)
    requires Traced(wf, work, a, j, mark) && e.step < |wf| && LabelOf(Caches.KeyOf(task)) == StepLabel(wf, e.step)
    requires Possible(Does(work), task, e.result) && (e.step == a ==> !e.result.success)
    ensures e.result.outputId != Some(mark) && mark !in wf[j].task.inputs && j < |wf|
  {
  }

  lemma {:induction false} RunUntainted(wf: Workflow, work: Work, a: nat, j: nat, mark: DataId, st: State,
                                        events: seq<Event>, after: State)
    requires Traced(wf, work, a, j, mark) && Untainted(wf, st, j, mark)
    requires Runs(wf, Does(work), st, events, after)
    requires forall e | e in events && e.step == a :: !e.result.success
    ensures Untainted(wf, after, j, mark)
    decreases |events|
  {
    hide Untainted, Traced, Advance, Does;
    if events != [] {
      assert events[0] in events;
      AdvanceUntainted(wf, work, a, j, mark, st, events[0]);
      assert forall e | e in events[1..] :: e in events;
      RunUntainted(wf, work, a, j, mark, Advance(wf, st, events[0]).value, events[1..], after);
    }
  }

  lemma {:induction false} StartUntainted(wf: Workflow, order: seq<nat>, usable: Outputs, j: nat, mark: DataId)
    requires Topological(wf, order) && j < |wf| && mark !in wf[j].task.inputs
    requires forall x | x in usable :: usable[x] != mark
    ensures Start(wf, order, usable).Some? && WellSized(wf, Start(wf, order, usable).value)
    ensures Untainted(wf, Launch(wf, Start(wf, order, usable).value), j, mark)
  {
    StartAsThemselves(wf, order, usable);
    StartInv(wf, order, usable);
    var st := Start(wf, order, usable).value;
    hide Start, Inv, Topological, AsThemselves;
    assert forall x | x in st.outputs :: st.outputs[x] != mark;
    SubmitsUntainted(wf, st.outputs, j, mark);
  }

  /** What comes back of a step that failed is its failure. */
  lemma {:induction false} FailedOnce(wf: Workflow, out: Task -> Option<DataId>, order: seq<nat>,
                                      events: seq<Event>, after: State, a: nat)
    requires RunOf(wf, out, order, map[], events, after) && Failed(after, a)
    ensures forall e | e in events && e.step == a :: !e.result.success
  {
    FromTheStart(wf, order);
    var st := Launch(wf, Start(wf, order, map[]).value);
    assert Elems(st.resumed) == {};
    hide Inv, Runs, Start, Launch;
    RunRecords(wf, out, st, {}, events, after);
  }

  /** An attempt in which `a` fails and the join runs all the same, and is recorded. */
  lemma {:induction false} PoisonedAttempt(wf: Workflow, work: Work, order: seq<nat>, a: nat, j: nat, mark: DataId,
                                           next: State)
    returns (events: seq<Event>, after: State)
    requires Topological(wf, order) && Traced(wf, work, a, j, mark)
    requires Reachable(wf, Does(work), order, next) && Failed(next, a) && j in next.running
    ensures RunOf(wf, Does(work), order, map[], events, after)
    ensures events != [] && events[|events| - 1] == Event(j, TaskResult(true, Some(Partial)))
    ensures after.results == next.results[j := TaskResult(true, Some(Partial))]
  {
    var out := Does(work);
    var before :| RunOf(wf, out, order, map[], before, next);
    var e := Event(j, TaskResult(true, Some(Partial)));
    JoinSaysPartial(wf, work, order, a, j, mark, before, next);
    hide RunOf, Traced, Does, Advance;
    RunGoesOn(wf, out, order, before, next, e);
    AdvanceRecords(wf, next, e);
    events, after := before + [e], Advance(wf, next, e).value;
  }

  lemma {:induction false} RunGoesOn(wf: Workflow, out: Task -> Option<DataId>, order: seq<nat>,
                                     events: seq<Event>, st: State, e: Event)
    requires RunOf(wf, out, order, map[], events, st) && e.step in st.running
    requires Possible(out, st.running[e.step], e.result)
    ensures WellSized(wf, st) && Advance(wf, st, e).Some?
    ensures RunOf(wf, out, order, map[], events + [e], Advance(wf, st, e).value)
  {
    FromTheStart(wf, order);
    var start := Launch(wf, Start(wf, order, map[]).value);
    assert Elems(start.resumed) == {};
    hide Inv, Start, Launch, Runs, Advance;
    var quit := RunKeeps(wf, out, start, {}, events, st);
    quit := Finish(wf, st, quit, e);
    RunsAppend(wf, out, start, events, st, e);
  }

  lemma {:induction false} JoinSaysPartial(wf: Workflow, work: Work, order: seq<nat>, a: nat, j: nat, mark: DataId,
                                           events: seq<Event>, st: State)
    requires Traced(wf, work, a, j, mark) && RunOf(wf, Does(work), order, map[], events, st)
    requires Failed(st, a) && j in st.running
    ensures Possible(Does(work), st.running[j], TaskResult(true, Some(Partial)))
  {
    FailedOnce(wf, Does(work), order, events, st, a);
    StartUntainted(wf, order, map[], j, mark);
    hide Runs, Start, Launch, Topological;
    RunUntainted(wf, work, a, j, mark, Launch(wf, Start(wf, order, map[]).value), events, st);
    SaysPartial(wf, work, a, j, mark, st);
  }

  lemma {:induction false} SaysPartial(wf: Workflow, work: Work, a: nat, j: nat, mark: DataId, st: State)
    requires Traced(wf, work, a, j, mark) && Untainted(wf, st, j, mark) && j in st.running
    ensures Possible(Does(work), st.running[j], TaskResult(true, Some(Partial)))
  {
    var k := Caches.KeyOf(st.running[j]);
    assert LabelOf(k) == StepLabel(wf, j) && k.inputs == st.running[j].inputs;
  }

  // ---- An attempt that records everything ----

  /** A step that succeeded at work that always leaves an output is recorded. */
  lemma {:induction false} SucceededCame(wf: Workflow, work: Work, order: seq<nat>,
                                         events: seq<Event>, after: State, x: nat)
    returns (id: DataId)
    requires RunOf(wf, Does(work), order, map[], events, after) && Succeeded(after, x) && forall k :: work(k).Some?
    ensures CameBack(events, x, id)
  {
    RunMade(wf, work, order, map[], events, after);
    hide RunOf, MadeBy, Does;
    var e := ItsEvent(wf, Does(work), order, events, after, x);
    assert MadeBy(wf, work, e);
    id := e.result.outputId.value;
    assert e == Event(x, TaskResult(true, Some(id)));
  }

  /** A result recorded came back. */
  lemma {:induction false} ItsEvent(wf: Workflow, out: Task -> Option<DataId>, order: seq<nat>,
                                    events: seq<Event>, after: State, x: nat)
    returns (e: Event)
    requires RunOf(wf, out, order, map[], events, after) && x in after.results
    ensures e in events && e.step == x && e.result == after.results[x]
  {
    hide Inv, Runs, Start, Launch, Steady, Closed;
    FromTheStart(wf, order);
    var st := Launch(wf, Start(wf, order, map[]).value);
    ElemsEmpty(st.resumed);
    NothingIsClosed(wf, Elems(st.resumed));
    RunOnce(wf, out, st, {}, events, after);
    RunRecords(wf, out, st, {}, events, after);
    assert x in Elems(Steps(events));
    var i :| 0 <= i < |events| && Steps(events)[i] == x;
    e := events[i];
  }

  lemma {:induction false} NothingIsClosed(wf: Workflow, s: set<nat>)
    requires s == {}
    ensures Closed(wf, s)
  {}

  lemma {:induction false} FullState(wf: Workflow, out: Task -> Option<DataId>, order: seq<nat>) returns (after: State)
    requires NoDuplicates(wf) && Topological(wf, order)
    ensures Reachable(wf, out, order, after) && after.results.Keys == Below(|wf|) && FailureFree(after, Below(|wf|))
  {
    CoversAll(|wf|, order);
    assert order[..|order|] == order;
    hide Inv, Reachable, NoDuplicates, Topological, Closed, Steady, Elems, FailureFree;
    AllClosed(wf, order);
    after := Drain(wf, out, order, Below(|wf|), |order|);
  }

  lemma {:induction false} FullAttempt(wf: Workflow, out: Task -> Option<DataId>, order: seq<nat>)
    returns (events: seq<Event>, after: State)
    requires NoDuplicates(wf) && Topological(wf, order)
    ensures RunOf(wf, out, order, map[], events, after) && forall x: nat | x < |wf| :: Succeeded(after, x)
  {
    hide RunOf, NoDuplicates, Topological;
    after := FullState(wf, out, order);
    events :| RunOf(wf, out, order, map[], events, after);
    forall x: nat | x < |wf| ensures Succeeded(after, x) { assert x in Below(|wf|) && x in after.results; }
  }

  // ---- An attempt with nothing left to do ----

  lemma {:induction false} NoneRuns(wf: Workflow, st: State)
    requires Steady(wf, st, {}) && Closed(wf, Elems(st.resumed)) && Elems(st.resumed) == Below(|wf|)
    ensures st.running == map[]
  {
    forall x ensures x !in st.running {
      if x in st.running {
        ActiveStep(wf, st, {}, x);
        NotResumed(wf, st, {}, x);
      }
    }
  }

  /** A start is a run in which nothing came back yet. */
  lemma {:induction false} NothingYet(wf: Workflow, out: Task -> Option<DataId>, order: seq<nat>, usable: Outputs)
    requires Topological(wf, order) && Start(wf, order, usable).Some?
    requires WellSized(wf, Start(wf, order, usable).value)
    ensures RunOf(wf, out, order, usable, [], Launch(wf, Start(wf, order, usable).value))
  {
    hide Topological, Start, Launch, WellSized;
  }

  /** With every step resumed nothing runs, and the outputs are what was found. */
  lemma {:induction false} NothingToDo(wf: Workflow, out: Task -> Option<DataId>, order: seq<nat>,
                                       usable: Outputs) returns (st: State)
    requires Topological(wf, order) && usable.Keys == Below(|wf|)
    ensures RunOf(wf, out, order, usable, [], st) && Finished(st) && st.outputs == usable
    ensures IsSuccess(Report(wf, st))
  {
    hide Inv, RunOf, Start, Launch, Topological, Closed, Report, IsSuccess;
    AllClosed(wf, order);
    DoneIsUsable(wf, order, usable);
    hide Done;
    Launched(wf, order, usable);
    NothingYet(wf, out, order, usable);
    st := Launch(wf, Start(wf, order, usable).value);
    NoneRuns(wf, st);
    ReportsSuccess(wf, st);
  }

  // ---- Together ----

  /** What three attempts leave the third to find: everything the first recorded, but for
      the join the record of the second. */
  ghost predicate ThirdFinds(wf: Workflow, j: nat, found: Outputs) {
    found.Keys == Below(|wf|) && j in found && found[j] == Partial
  }

  lemma {:induction false} FullyRecorded(wf: Workflow, name: Named, h: seq<Attempt>, x: nat, id: DataId)
    requires |h| >= 2 && CameBack(h[0].events, x, id)
    ensures x in Found(JournalAt(name, h, 2), name)
  {
    var records := JournalAt(name, h, 2);
    var r := Record(name.run, name.fingerprint, x, id);
    JournalCame(name, h, 2, r);
    LatestIn(records, name.run, x);
    FoundLatest(name, h, 2, x);
  }

  lemma {:induction false} LastWins(name: Named, h: seq<Attempt>, j: nat, id: DataId)
    requires |h| >= 2 && h[1].events != [] && h[1].events[|h[1].events| - 1] == Event(j, TaskResult(true, Some(id)))
    ensures j in Found(JournalAt(name, h, 2), name) && Found(JournalAt(name, h, 2), name)[j] == id
  {
    var records := JournalAt(name, h, 2);
    var r := Record(name.run, name.fingerprint, j, id);
    assert Logged(name, h[1].events) == Logged(name, h[1].events[..|h[1].events| - 1]) + [r];
    assert records[|records| - 1] == r;
    assert Latest(records, name.run, j) == Some(r);
    FoundLatest(name, h, 2, j);
  }

  lemma {:induction false} FoundIsStep(wf: Workflow, name: Named, h: seq<Attempt>, n: nat, x: nat)
    requires n <= |h| && x in Found(JournalAt(name, h, n), name)
    requires forall i, e | 0 <= i < n && e in h[i].events :: e.step < |wf|
    ensures x in Below(|wf|)
  {
    var records := JournalAt(name, h, n);
    FoundLatest(name, h, n, x);
    LatestIn(records, name.run, x);
    var r := Latest(records, name.run, x).value;
    JournalCame(name, h, n, r);
    hide JournalAt, Found, Latest;
    var i :| 0 <= i < n && CameBack(h[i].events, x, r.outputId);
  }

  /** The first attempt recorded everything and the second the join once more: the third
      finds every step, and the wrong record of the join. */
  lemma {:induction false} WhatIsFound(wf: Workflow, work: Work, order: seq<nat>, name: Named, h: seq<Attempt>, j: nat)
    requires |h| == 2 && (forall k :: work(k).Some?)
    requires RunOf(wf, Does(work), order, map[], h[0].events, h[0].stopped)
    requires forall x: nat | x < |wf| :: Succeeded(h[0].stopped, x)
    requires forall e | e in h[1].events :: e.step < |wf|
    requires h[1].events != [] && h[1].events[|h[1].events| - 1] == Event(j, TaskResult(true, Some(Partial)))
    ensures var found := Found(JournalAt(name, h, 2), name);
            ThirdFinds(wf, j, found) && NextUsable(name, h, found.Values) == found
  {
    var found := Found(JournalAt(name, h, 2), name);
    hide RunOf, JournalAt, Found, Succeeded;
    assert NextUsable(name, h, found.Values) == found;
    hide NextUsable, Does;
    EveryStepFound(wf, work, order, name, h);
    LastWins(name, h, j, Partial);
  }

  lemma {:induction false} EveryStepFound(wf: Workflow, work: Work, order: seq<nat>, name: Named, h: seq<Attempt>)
    requires |h| == 2 && (forall k :: work(k).Some?)
    requires RunOf(wf, Does(work), order, map[], h[0].events, h[0].stopped)
    requires forall x: nat | x < |wf| :: Succeeded(h[0].stopped, x)
    requires forall e | e in h[1].events :: e.step < |wf|
    ensures Found(JournalAt(name, h, 2), name).Keys == Below(|wf|)
  {
    hide RunOf, JournalAt, Found, CameBack, Does;
    var found := Found(JournalAt(name, h, 2), name);
    forall x | x in Below(|wf|) ensures x in found {
      var id := SucceededCame(wf, work, order, h[0].events, h[0].stopped, x);
      FullyRecorded(wf, name, h, x, id);
    }
    RunMade(wf, work, order, map[], h[0].events, h[0].stopped);
    forall i, e | 0 <= i < 2 && e in h[i].events ensures e.step < |wf| { assert i == 0 || i == 1; }
    forall x | x in found ensures x in Below(|wf|) { FoundIsStep(wf, name, h, 2, x); }
  }

  /** One dependency fails, the other succeeds, and the join runs and is recorded. */
  lemma {:induction false} FailThenJoin(wf: Workflow, work: Work, order: seq<nat>, a: nat, b: nat, j: nat, mark: DataId)
    returns (events: seq<Event>, after: State)
    requires NoDuplicates(wf) && Topological(wf, order) && Traced(wf, work, a, j, mark) && b < |wf|
    requires b in Deps(wf, j) && !Comparable(wf, a, b)
    requires Deps(wf, j) <= Elsewhere(wf, a, b) + {a, b} && j !in Elsewhere(wf, a, b) + {a, b}
    ensures RunOf(wf, Does(work), order, map[], events, after)
    ensures Failed(after, a) && Succeeded(after, b)
    ensures events != [] && events[|events| - 1] == Event(j, TaskResult(true, Some(Partial)))
  {
    assert a < |wf| && j < |wf| && a in Deps(wf, j) && a != j;
    hide NoDuplicates, Topological, RunOf, Comparable, Elsewhere, Does, Reachable, Traced, WellSized;
    var next := LeakAt(wf, Does(work), order, a, b, j);
    assert j != b;
    events, after := PoisonedAttempt(wf, work, order, a, j, mark, next);
  }

  lemma {:induction false} AgainSelf(wf: Workflow)
    ensures Again(wf, wf) && Closed(wf, {})
  {}

  /** There is such work for any step and any other that reads it. */
  lemma {:induction false} TracedAt(wf: Workflow, a: nat, j: nat, kept: set<nat>) returns (mark: DataId)
    requires a < |wf| && j < |wf| && a != j && a in Deps(wf, j) && Distinguishable(wf)
    ensures Traced(wf, MarkedWork(wf, a, j, mark, kept), a, j, mark)
    ensures |mark.content| >= 2
  {
    var n := FreshId(wf[j].task.inputs);
    mark := Mark(n);
    assert |Whole.content| == 0 && |Partial.content| == 1 && |Kept.content| == 1;
    var work := MarkedWork(wf, a, j, mark, kept);
    forall k, x: nat | x < |wf| && LabelOf(k) == StepLabel(wf, x)
      ensures x == a <==> work(k) == Some(mark)
      ensures x == j ==> work(k) == Some(if mark in k.inputs then Whole else Partial)
    {
      assert StepLabel(wf, a) != StepLabel(wf, j);
      assert x != a ==> StepLabel(wf, x) != StepLabel(wf, a);
    }
  }

  /** Two attempts, the first of which recorded everything and the second the join once more
      and wrong, and a third that finds all of it. */
  lemma {:induction false} ThirdAttempt(wf: Workflow, work: Work, order: seq<nat>, name: Named, first: Attempt,
                                        second: Attempt, j: nat)
    returns (h: seq<Attempt>)
    requires Topological(wf, order) && first.wf == second.wf == wf && first.held == {}
    requires RunOf(wf, Does(work), order, map[], first.events, first.stopped)
    requires RunOf(wf, Does(work), order, NextUsable(name, [first], second.held), second.events, second.stopped)
    requires forall k :: work(k).Some?
    requires forall x: nat | x < |wf| :: Succeeded(first.stopped, x)
    requires second.events != [] && second.events[|second.events| - 1] == Event(j, TaskResult(true, Some(Partial)))
    ensures History(wf, work, order, name, h) && |h| == 3 && h[0] == first && h[1] == second && h[2].wf == wf
    ensures UsableAt(name, h, 0) == map[] && UsableAt(name, h, 1) == NextUsable(name, [first], second.held)
    ensures UsableAt(name, h, 2).Keys == Below(|wf|)
    ensures EndsWell(h[2]) && IsSuccess(Report(wf, h[2].stopped))
    ensures j in h[2].stopped.outputs && h[2].stopped.outputs[j] == Partial
  {
    hide Topological, RunOf, Does, History, Resumable, Found, JournalAt, Again, Report, IsSuccess;
    AgainSelf(wf);
    StartsEmpty(wf, work, order, name);
    NoneHeld(name, []);
    OneMore(wf, work, order, name, [], first);
    assert [] + [first] == [first];
    hide NextUsable;
    OneMore(wf, work, order, name, [first], second);
    var two := [first] + [second];
    RunMade(wf, work, order, NextUsable(name, [first], second.held), second.events, second.stopped);
    WhatIsFound(wf, work, order, name, two, j);
    var held := Found(JournalAt(name, two, 2), name).Values;
    var st := NothingToDo(wf, Does(work), order, NextUsable(name, two, held));
    var third := Attempt(wf, held, [], st);
    OneMore(wf, work, order, name, two, third);
    h := two + [third];
    ThreeFind(name, first, second, third);
  }

  lemma {:induction false} ThreeFind(name: Named, first: Attempt, second: Attempt, third: Attempt)
    ensures var two := [first] + [second]; var h := two + [third];
            && UsableAt(name, h, 0) == NextUsable(name, [], first.held)
            && UsableAt(name, h, 1) == NextUsable(name, [first], second.held)
            && UsableAt(name, h, 2) == NextUsable(name, two, third.held)
  {
    hide UsableAt, NextUsable;
    var two := [first] + [second];
    UsableStays(name, two, third, 0);
    UsableStays(name, two, third, 1);
    UsableStays(name, two, third, 2);
    UsableStays(name, [first], second, 0);
    UsableStays(name, [first], second, 1);
    assert [first] == [] + [first];
    UsableStays(name, [], first, 0);
  }

  lemma {:induction false} NoneHeld(name: Named, h: seq<Attempt>)
    ensures NextUsable(name, h, {}) == map[] && NextUsable(name, h, {}).Keys == {}
  {}

  lemma {:induction false} StartsEmpty(wf: Workflow, work: Work, order: seq<nat>, name: Named)
    ensures History(wf, work, order, name, []) && Resumable(wf, name, [])
  {}

  /** Three attempts, each resuming from a closed set, the last of which ends well with the
      wrong output of a join: the first ran everything; then the mesh had lost it all, and
      in the second a dependency failed and the join ran without it; then all was back. */
  lemma {:induction false} PoisonedHistory(wf: Workflow, order: seq<nat>, name: Named) returns (work: Work,
                                           h: seq<Attempt>)
    requires NoDuplicates(wf) && Topological(wf, order) && !Chained(wf) && Distinguishable(wf) && Within(order, |wf|)
    ensures History(wf, work, order, name, h) && Resumable(wf, name, h) && |h| == 3 && EndsWell(h[2])
    ensures h[2].stopped.outputs != SeqEval(wf, Does(work), order)
  {
    hide NoDuplicates, Topological, Comparable, Elsewhere, Chained, Distinguishable, MarkedWork, Traced;
    hide EvalFirst, Ancestor, Within, History, Resumable;
    var a, b, j := LeakPlace(wf, order);
    var mark := TracedAt(wf, a, j, {});
    work := MarkedWork(wf, a, j, mark, {});
    h := PoisonedAt(wf, work, order, name, a, b, j, mark);
    RightAnswer(wf, work, order, a, j, mark);
    assert h[2].stopped.outputs[j] == Partial;
  }

  lemma {:induction false} PoisonedAt(wf: Workflow, work: Work, order: seq<nat>, name: Named, a: nat, b: nat, j: nat,
                                      mark: DataId)
    returns (h: seq<Attempt>)
    requires NoDuplicates(wf) && Topological(wf, order) && Traced(wf, work, a, j, mark) && b < |wf|
    requires b in Deps(wf, j) && !Comparable(wf, a, b)
    requires Deps(wf, j) <= Elsewhere(wf, a, b) + {a, b} && j !in Elsewhere(wf, a, b) + {a, b}
    ensures History(wf, work, order, name, h) && Resumable(wf, name, h) && |h| == 3 && EndsWell(h[2])
    ensures j in h[2].stopped.outputs && h[2].stopped.outputs[j] == Partial
  {
    hide NoDuplicates, Topological, RunOf, Comparable, Elsewhere, Traced;
    AlwaysLeaves(wf, work, a, j, mark);
    hide History, Resumable, Does, Succeeded, Failed, UsableAt, NextUsable, Report, IsSuccess, Finished, AllSucceed;
    var events, after := FullAttempt(wf, Does(work), order);
    var first := Attempt(wf, {}, events, after);
    events, after := FailThenJoin(wf, work, order, a, b, j, mark);
    var second := Attempt(wf, {}, events, after);
    NoneHeld(name, [first]);
    h := ThirdAttempt(wf, work, order, name, first, second, j);
    AllClosed(wf, order);
    ClosedThree(wf, name, h);
  }

  lemma {:induction false} ClosedThree(wf: Workflow, name: Named, h: seq<Attempt>)
    requires |h| == 3 && UsableAt(name, h, 0) == map[] && UsableAt(name, h, 1) == map[]
    requires UsableAt(name, h, 2).Keys == Below(|wf|) && Closed(wf, Below(|wf|))
    ensures Resumable(wf, name, h)
  {
    hide UsableAt;
    forall n | 0 <= n < |h| ensures Closed(wf, UsableAt(name, h, n).Keys) { assert n == 0 || n == 1 || n == 2; }
  }

  lemma {:induction false} UnchainedPoisons(wf: Workflow)
    requires NoDuplicates(wf) && Acyclic(wf) && !Chained(wf) && Distinguishable(wf)
    ensures !forall work :: PreservesClosed(wf, work)
  {
    var order :| Topological(wf, order);
    assert Within(order, |wf|);
    hide NoDuplicates, Topological, Chained, Distinguishable, EvalFirst, History, Resumable, EndsWell;
    var work, h := PoisonedHistory(wf, order, Named("", ""));
    assert !PreservesClosed(wf, work);
  }

  /** Where every attempt resumes a closed set, resuming preserves meaning, for every kind of
      work, whatever failed and wherever the attempts before stopped, exactly when of any two
      dependencies of a step one is upstream of the other. */
  lemma {:induction false} ResumeExactly(wf: Workflow)
    requires NoDuplicates(wf) && Acyclic(wf) && Distinguishable(wf)
    ensures (forall work :: PreservesClosed(wf, work)) <==> Chained(wf)
  {
    hide NoDuplicates, Chained, Distinguishable, PreservesClosed, Acyclic;
    if Chained(wf) {
      forall work ensures PreservesClosed(wf, work) { ChainedPreserves(wf, work); }
    } else {
      UnchainedPoisons(wf);
    }
  }

  // ---- The graph alone ----

  function Kind(n: nat): string {
    seq(n, _ => 'x')
  }

  /** The same graph with every step a task of its own kind. */
  function Labelled(wf: Workflow): Workflow {
    seq(|wf|, x requires 0 <= x < |wf| => Step(Task(x, Kind(x), [], [], 2, None), wf[x].dependsOn))
  }

  lemma {:induction false} LabelledTells(wf: Workflow)
    ensures SameShape(wf, Labelled(wf)) && Distinguishable(Labelled(wf))
  {
    var l := Labelled(wf);
    forall x: nat, y: nat | x < y < |l| ensures StepLabel(l, x) != StepLabel(l, y) {
      assert |StepLabel(l, x).0| == x && |StepLabel(l, y).0| == y;
    }
  }

  /** Whatever the steps of the graph do, that is what resuming closed sets depends on. */
  lemma {:induction false} ResumeExactlyForShape(wf: Workflow)
    requires NoDuplicates(wf) && Acyclic(wf)
    ensures (forall other, work | SameShape(wf, other) :: PreservesClosed(other, work)) <==> Chained(wf)
  {
    hide Chained, Distinguishable, PreservesClosed;
    var order :| Topological(wf, order);
    if Chained(wf) {
      forall other, work | SameShape(wf, other) ensures PreservesClosed(other, work) {
        SameGraph(wf, other, order, {});
        SameChains(wf, other);
        ChainedPreserves(other, work);
      }
    } else {
      var l := Labelled(wf);
      LabelledTells(wf);
      SameGraph(wf, l, order, {});
      assert Acyclic(l);
      if Chained(l) { SameChains(l, wf); }
      UnchainedPoisons(l);
      var work :| !PreservesClosed(l, work);
    }
  }
}
