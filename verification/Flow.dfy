/** Running a workflow: what the runner keeps, and what one finished step does to it.
    Steps finish in any order; a run is a starting state and the list of finishes. */
module Flows {
  import opened Core
  import opened Workflows

  datatype TaskResult = TaskResult(success: bool, outputId: Option<DataId>)

  /** Where finished steps left what they produced. */
  type Outputs = map<nat, DataId>

  datatype State = State(
    waiting: seq<nat>,           // dependencies each step still waits for
    outputs: Outputs,
    results: map<nat, TaskResult>,
    ready: seq<nat>,             // released, not yet submitted
    running: map<nat, Task>,     // submitted, with the task each was submitted as
    abandoned: seq<nat>,
    resumed: seq<nat>)

  // ---- What a step reads ----

  /** `inputs`, then every dependency's output that is known and not already listed. */
  function AddInputs(inputs: seq<DataId>, deps: seq<nat>, outputs: Outputs): (r: seq<DataId>)
    ensures inputs <= r
    decreases |deps|
  {
    if deps == [] then inputs
    else
      var more :=
        if deps[0] in outputs && outputs[deps[0]] !in inputs then inputs + [outputs[deps[0]]] else inputs;
      AddInputs(more, deps[1..], outputs)
  }

  function TaskFor(wf: Workflow, step: nat, outputs: Outputs): Task
    requires step < |wf|
  {
    wf[step].task.(inputs := AddInputs(wf[step].task.inputs, wf[step].dependsOn, outputs))
  }

  /** The loop that fills a task's inputs. */
  method BuildTask(wf: Workflow, step: nat, outputs: Outputs) returns (task: Task)
    requires step < |wf|
    ensures task == TaskFor(wf, step, outputs)
  {
    task := wf[step].task;
    var deps := wf[step].dependsOn;
    for i := 0 to |deps|
      invariant task == wf[step].task.(inputs := task.inputs)
      invariant AddInputs(task.inputs, deps[i..], outputs) == TaskFor(wf, step, outputs).inputs
    {
      assert deps[i..][1..] == deps[i + 1..];
      if deps[i] in outputs && outputs[deps[i]] !in task.inputs {
        task := task.(inputs := task.inputs + [outputs[deps[i]]]);
      }
    }
  }

  /** A task reads its declared inputs and the outputs of its dependencies, nothing else. */
  lemma {:induction false} InputsAre(inputs: seq<DataId>, deps: seq<nat>, outputs: Outputs, id: DataId)
    ensures id in AddInputs(inputs, deps, outputs)
       <==> id in inputs || exists d | d in deps && d in outputs :: outputs[d] == id
    decreases |deps|
  {
    if deps != [] {
      var more :=
        if deps[0] in outputs && outputs[deps[0]] !in inputs then inputs + [outputs[deps[0]]] else inputs;
      InputsAre(more, deps[1..], outputs, id);
      assert deps == [deps[0]] + deps[1..];
    }
  }

  /** The place in `deps` of the first to have left `id`. */
  function FirstWith(deps: seq<nat>, outputs: Outputs, id: DataId): nat {
    if deps == [] || (deps[0] in outputs && outputs[deps[0]] == id) then 0
    else 1 + FirstWith(deps[1..], outputs, id)
  }

  /** From `from` on, every entry is new, and they come in the order of the dependencies. */
  predicate AddedInOrder(ids: seq<DataId>, from: nat, deps: seq<nat>, outputs: Outputs) {
    && (forall i | from <= i < |ids| :: ids[i] !in ids[..i])
    && (forall i, j | from <= i < j < |ids| :: FirstWith(deps, outputs, ids[i]) < FirstWith(deps, outputs, ids[j]))
  }

  lemma {:induction false} InputsInOrder(inputs: seq<DataId>, deps: seq<nat>, outputs: Outputs)
    ensures AddedInOrder(AddInputs(inputs, deps, outputs), |inputs|, deps, outputs)
    decreases |deps|
  {
    if deps != [] {
      var known := deps[0] in outputs;
      var more := if known && outputs[deps[0]] !in inputs then inputs + [outputs[deps[0]]] else inputs;
      var r := AddInputs(more, deps[1..], outputs);
      InputsInOrder(more, deps[1..], outputs);
      forall i | |more| <= i < |r|
        ensures FirstWith(deps, outputs, r[i]) == 1 + FirstWith(deps[1..], outputs, r[i])
      {
        assert more <= r[..i] && r[i] !in r[..i];
        assert known ==> outputs[deps[0]] in more;
      }
      if |more| > |inputs| { assert r[|inputs|] == more[|inputs|] == outputs[deps[0]]; }
    }
  }

  /** What is submitted for a step is the step's own task, reading its declared inputs first
      and then each output it depends on once, in the order it lists its dependencies. */
  lemma {:induction false} TaskReads(wf: Workflow, step: nat, outputs: Outputs)
    requires step < |wf|
    ensures var own, task := wf[step].task, TaskFor(wf, step, outputs);
            && task.id == own.id && task.kind == own.kind && task.payload == own.payload
            && task.priority == own.priority && task.moduleId == own.moduleId
            && own.inputs <= task.inputs
            && AddedInOrder(task.inputs, |own.inputs|, wf[step].dependsOn, outputs)
  {
    InputsInOrder(wf[step].task.inputs, wf[step].dependsOn, outputs);
  }

  lemma {:induction false} InputsAgree(inputs: seq<DataId>, deps: seq<nat>, a: Outputs, b: Outputs)
    requires forall d | d in deps :: SameAt(a, b, d)
    ensures AddInputs(inputs, deps, a) == AddInputs(inputs, deps, b)
    decreases |deps|
  {
    if deps != [] {
      assert SameAt(a, b, deps[0]);
      var more := if deps[0] in a && a[deps[0]] !in inputs then inputs + [a[deps[0]]] else inputs;
      InputsAgree(more, deps[1..], a, b);
    }
  }

  predicate SameAt(a: Outputs, b: Outputs, x: nat) {
    && (x in a <==> x in b)
    && (x in a && x in b ==> a[x] == b[x])
  }

  // ---- One finished step ----

  /** Takes one off the counter of every step in `further`, abandoning those that reach
      zero. `None` where the unsigned counter would go below zero. */
  function GiveUpOn(st: State, further: seq<nat>): (r: Option<State>)
    requires Within(further, |st.waiting|)
    ensures r.Some? ==> |r.value.waiting| == |st.waiting|
    ensures r.Some? ==> r.value == st.(waiting := r.value.waiting, abandoned := r.value.abandoned)
    decreases |further|
  {
    if further == [] then Some(st)
    else if st.waiting[further[0]] == 0 then None
    else
      var less := st.(waiting := st.waiting[further[0] := st.waiting[further[0]] - 1]);
      var next :=
        if less.waiting[further[0]] == 0 then less.(abandoned := less.abandoned + [further[0]]) else less;
      GiveUpOn(next, further[1..])
  }

  /** What one dependent makes of `step` coming back: one less to wait for, and then,
      with nothing left to wait for, released or given up on. */
  function Hear(wf: Workflow, st: State, step: nat, succeeded: bool, x: nat): (r: Option<State>)
    requires |st.waiting| == |wf| && x < |wf|
    ensures r.Some? ==>
              r.value == st.(waiting := r.value.waiting, ready := r.value.ready, abandoned := r.value.abandoned)
    ensures r.Some? ==> |r.value.waiting| == |wf|
    ensures r.Some? && Within(st.ready, |wf|) ==> Within(r.value.ready, |wf|)
    ensures r.Some? && !succeeded ==> r.value.ready == st.ready
  {
    if st.waiting[x] == 0 then None
    else
      var less := st.(waiting := st.waiting[x := st.waiting[x] - 1]);
      if less.waiting[x] > 0 then Some(less)
      else if succeeded && step !in less.abandoned then Some(less.(ready := less.ready + [x]))
      else GiveUpOn(less.(abandoned := less.abandoned + [x]), DependentsOf(wf, x))
  }

  /** Tells every step in `dependents` that `step` came back. */
  function Release(wf: Workflow, st: State, step: nat, succeeded: bool, dependents: seq<nat>): (r: Option<State>)
    requires |st.waiting| == |wf|
    requires Within(dependents, |wf|)
    ensures r.Some? ==>
              r.value == st.(waiting := r.value.waiting, ready := r.value.ready, abandoned := r.value.abandoned)
    ensures r.Some? ==> |r.value.waiting| == |wf|
    ensures r.Some? && Within(st.ready, |wf|) ==> Within(r.value.ready, |wf|)
    ensures r.Some? && !succeeded ==> r.value.ready == st.ready
    decreases |dependents|
  {
    if dependents == [] then Some(st)
    else
      var next := Hear(wf, st, step, succeeded, dependents[0]);
      if next.None? then None else Release(wf, next.value, step, succeeded, dependents[1..])
  }

  function Put(m: Outputs, x: nat, id: Option<DataId>): Outputs {
    if id.Some? then m[x := id.value] else m
  }

  /** What the runner does when `step` comes back. */
  function Complete(wf: Workflow, st: State, step: nat, result: TaskResult): Option<State>
    requires |st.waiting| == |wf|
  {
    Release(wf, Landed(st, step, result), step, result.success, DependentsOf(wf, step))
  }

  function Landed(st: State, step: nat, result: TaskResult): State {
    st.(running := st.running - {step},
        outputs := Put(st.outputs, step, result.outputId),
        results := st.results[step := result])
  }

  /** Everything released goes out together, reading what is there now. */
  function Launch(wf: Workflow, st: State): State
    requires Within(st.ready, |wf|)
  {
    st.(ready := [], running := st.running + map x | x in st.ready :: TaskFor(wf, x, st.outputs))
  }

  // ---- The loops that compute it ----

  method GiveUpLoop(st: State, further: seq<nat>) returns (r: Option<State>)
    requires Within(further, |st.waiting|)
    ensures r == GiveUpOn(st, further)
  {
    var now := st;
    for i := 0 to |further|
      invariant |now.waiting| == |st.waiting|
      invariant GiveUpOn(now, further[i..]) == GiveUpOn(st, further)
    {
      var x := further[i];
      assert further[i..][1..] == further[i + 1..];
      if now.waiting[x] == 0 { return None; }
      now := now.(waiting := now.waiting[x := now.waiting[x] - 1]);
      if now.waiting[x] == 0 {
        now := now.(abandoned := now.abandoned + [x]);
      }
    }
    return Some(now);
  }

  method CompleteStep(wf: Workflow, st: State, step: nat, result: TaskResult) returns (r: Option<State>)
    requires |st.waiting| == |wf|
    ensures r == Complete(wf, st, step, result)
  {
    var now := Landed(st, step, result);
    var dependents := DependentsOf(wf, step);
    for i := 0 to |dependents|
      invariant |now.waiting| == |wf|
      invariant Release(wf, now, step, result.success, dependents[i..]) == Complete(wf, st, step, result)
    {
      var x := dependents[i];
      assert dependents[i..][1..] == dependents[i + 1..];
      if now.waiting[x] == 0 { return None; }
      now := now.(waiting := now.waiting[x := now.waiting[x] - 1]);
      if now.waiting[x] > 0 { continue; }
      if result.success && step !in now.abandoned {
        now := now.(ready := now.ready + [x]);
      } else {
        now := now.(abandoned := now.abandoned + [x]);
        var gone := GiveUpLoop(now, DependentsOf(wf, x));
        if gone.None? { return None; }
        now := gone.value;
      }
    }
    return Some(now);
  }

  // ---- Starting, with or without an earlier run ----

  function Fresh(wf: Workflow): State {
    State(seq(|wf|, x requires 0 <= x < |wf| => |wf[x].dependsOn|), map[], map[], [], map[], [], [])
  }

  /** Takes one off the counter of every step in `dependents`. */
  function Discount(waiting: seq<nat>, dependents: seq<nat>): (r: Option<seq<nat>>)
    requires Within(dependents, |waiting|)
    ensures r.Some? ==> |r.value| == |waiting|
    decreases |dependents|
  {
    if dependents == [] then Some(waiting)
    else if waiting[dependents[0]] == 0 then None
    else Discount(waiting[dependents[0] := waiting[dependents[0]] - 1], dependents[1..])
  }

  /** Marks `step` as done by an earlier run, with `output` still out there. */
  function ResumeOne(wf: Workflow, st: State, step: nat, output: DataId): (r: Option<State>)
    requires |st.waiting| == |wf|
    ensures r.Some? ==> |r.value.waiting| == |wf|
  {
    var less := Discount(st.waiting, DependentsOf(wf, step));
    if less.None? then None
    else
      Some(st.(outputs := st.outputs[step := output],
               resumed := st.resumed + [step],
               waiting := less.value))
  }

  /** Marks every step of `order` that `usable` has an output for. */
  function Resume(wf: Workflow, st: State, order: seq<nat>, usable: Outputs): (r: Option<State>)
    requires |st.waiting| == |wf|
    ensures r.Some? ==> |r.value.waiting| == |wf|
    decreases |order|
  {
    if order == [] then Some(st)
    else if order[0] !in usable then Resume(wf, st, order[1..], usable)
    else
      var next := ResumeOne(wf, st, order[0], usable[order[0]]);
      if next.None? then None else Resume(wf, next.value, order[1..], usable)
  }

  /** The steps below `bound` nothing holds back and no earlier run finished. */
  function Unblocked(st: State, bound: nat): (r: seq<nat>)
    requires bound <= |st.waiting|
    ensures forall x :: x in r <==> 0 <= x < bound && st.waiting[x] == 0 && x !in st.resumed
  {
    if bound == 0 then []
    else
      Unblocked(st, bound - 1)
      + (if st.waiting[bound - 1] == 0 && bound - 1 !in st.resumed then [bound - 1] else [])
  }

  /** The state the loop starts from, before anything is submitted. */
  function Start(wf: Workflow, order: seq<nat>, usable: Outputs): Option<State> {
    var st := Resume(wf, Fresh(wf), order, usable);
    if st.None? then None
    else Some(st.value.(ready := Unblocked(st.value, |wf|)))
  }

  // ---- Runs ----

  datatype Event = Event(step: nat, result: TaskResult)

  predicate WellSized(wf: Workflow, st: State) {
    |st.waiting| == |wf| && Within(st.ready, |wf|)
  }

  /** One step coming back and everything it released going out. */
  function Advance(wf: Workflow, st: State, e: Event): Option<State>
    requires WellSized(wf, st)
  {
    var next := Complete(wf, st, e.step, e.result);
    if next.None? then None else Some(Launch(wf, next.value))
  }

  /** A result a node may send back for `task`: a success carries the output the work
      determines, a failure carries none. `out` is the work itself. */
  predicate Possible(out: Task -> Option<DataId>, task: Task, result: TaskResult) {
    result.outputId == if result.success then out(task) else None
  }

  /** `after` is where the runner is once `events` have come back, starting from `st`
      with everything ready submitted. */
  ghost predicate Runs(wf: Workflow, out: Task -> Option<DataId>, st: State, events: seq<Event>, after: State)
    decreases |events|
  {
    if events == [] then after == st
    else
      var e := events[0];
      && WellSized(wf, st)
      && e.step in st.running
      && Possible(out, st.running[e.step], e.result)
      && Advance(wf, st, e).Some?
      && Runs(wf, out, Advance(wf, st, e).value, events[1..], after)
  }

  // ---- What a run reports ----

  datatype FlowResult = FlowResult(
    results: seq<TaskResult>,
    stepsRun: seq<nat>,
    skipped: set<nat>,
    resumed: set<nat>)

  /** The steps below `bound` that ran, in the order they were written. */
  function StepsRun(results: map<nat, TaskResult>, bound: nat): (r: seq<nat>)
    ensures forall x :: x in r <==> 0 <= x < bound && x in results
    ensures forall i | 0 <= i < |r| :: r[i] in results
  {
    if bound == 0 then []
    else StepsRun(results, bound - 1) + (if bound - 1 in results then [bound - 1] else [])
  }

  function Report(wf: Workflow, st: State): FlowResult {
    var ran := StepsRun(st.results, |wf|);
    FlowResult(seq(|ran|, i requires 0 <= i < |ran| => st.results[ran[i]]),
               ran, Elems(st.abandoned), Elems(st.resumed))
  }

  predicate IsSuccess(r: FlowResult) {
    r.skipped == {} && forall i | 0 <= i < |r.results| :: r.results[i].success
  }
}
