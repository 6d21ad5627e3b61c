/** Whole runs: where they start, what they keep, how they end, and the sequential
    evaluation they are compared with. */
module FlowRuns {
  import opened Core
  import opened Workflows
  import opened Flows
  import opened FlowInvariant

  // ---- The reference: one step at a time, in a given order ----

  /** The outputs known after the first `n` steps of `order`. */
  function EvalFirst(wf: Workflow, out: Task -> Option<DataId>, order: seq<nat>, n: nat): Outputs
    requires Within(order, |wf|) && n <= |order|
  {
    if n == 0 then map[]
    else
      var before := EvalFirst(wf, out, order, n - 1);
      Put(before, order[n - 1], out(TaskFor(wf, order[n - 1], before)))
  }

  function SeqEval(wf: Workflow, out: Task -> Option<DataId>, order: seq<nat>): Outputs
    requires Within(order, |wf|)
  {
    EvalFirst(wf, out, order, |order|)
  }

  /** `v` gives every step the output its work produces from what `v` gives its dependencies. */
  ghost predicate Fixpoint(wf: Workflow, out: Task -> Option<DataId>, v: Outputs) {
    forall x: nat | x < |wf| :: SameAt(v, Put(map[], x, out(TaskFor(wf, x, v))), x)
  }

  /** Steps evaluated from `i` on leave the output of any other step alone. */
  lemma {:induction false} EvalLater(wf: Workflow, out: Task -> Option<DataId>, order: seq<nat>, i: nat, n: nat, x: nat)
    requires Within(order, |wf|) && i <= n <= |order|
    requires forall j | i <= j < n :: order[j] != x
    ensures SameAt(EvalFirst(wf, out, order, i), EvalFirst(wf, out, order, n), x)
  {
    if i < n {
      EvalLater(wf, out, order, i, n - 1, x);
    }
  }

  lemma {:induction false} EvalKeys(wf: Workflow, out: Task -> Option<DataId>, order: seq<nat>, n: nat)
    requires Within(order, |wf|) && n <= |order|
    ensures EvalFirst(wf, out, order, n).Keys <= Below(|wf|)
  {
    if n > 0 { EvalKeys(wf, out, order, n - 1); }
  }

  lemma {:induction false} EvalAt(wf: Workflow, out: Task -> Option<DataId>, order: seq<nat>, i: nat)
    requires Topological(wf, order) && i < |order|
    ensures var v, x := SeqEval(wf, out, order), order[i];
            SameAt(v, Put(map[], x, out(TaskFor(wf, x, v))), x)
  {
    var v, x := SeqEval(wf, out, order), order[i];
    var before := EvalFirst(wf, out, order, i);
    forall d | d in wf[x].dependsOn ensures SameAt(before, v, d) {
      var j := DepBefore(wf, order, i, d);
      EvalLater(wf, out, order, i, |order|, d);
    }
    InputsAgree(wf[x].task.inputs, wf[x].dependsOn, before, v);
    EvalLater(wf, out, order, 0, i, x);
    EvalLater(wf, out, order, i + 1, |order|, x);
  }

  lemma {:induction false} SeqEvalFixpoint(wf: Workflow, out: Task -> Option<DataId>, order: seq<nat>)
    requires Topological(wf, order)
    ensures Fixpoint(wf, out, SeqEval(wf, out, order))
    ensures SeqEval(wf, out, order).Keys <= Below(|wf|)
  {
    EvalKeys(wf, out, order, |order|);
    var v := SeqEval(wf, out, order);
    forall x: nat | x < |wf| ensures SameAt(v, Put(map[], x, out(TaskFor(wf, x, v))), x) {
      var i := PlaceOf(wf, order, x);
      EvalAt(wf, out, order, i);
    }
  }

  // ---- Where a run starts ----

  lemma {:induction false} DiscountKeeps(wf: Workflow, waiting: seq<nat>, sources: set<nat>, y: nat,
                                         dependents: seq<nat>)
    requires Counted(wf, waiting, sources, Edges(y, dependents)) && y in sources
    requires Distinct(dependents) && Within(dependents, |waiting|)
    requires forall x | x in dependents :: x < |wf| && y in Deps(wf, x)
    ensures Discount(waiting, dependents).Some?
    ensures Counted(wf, Discount(waiting, dependents).value, sources, {})
    decreases |dependents|
  {
    if dependents == [] {
      assert Edges(y, dependents) == {};
    } else {
      var x := dependents[0];
      EdgesSplit(y, dependents);
      Deliver(wf, waiting, sources, Edges(y, dependents), Edges(y, dependents[1..]), y, x);
      DiscountKeeps(wf, waiting[x := waiting[x] - 1], sources, y, dependents[1..]);
    }
  }

  /** The steps of `order` an earlier run finished. */
  function Done(order: seq<nat>, usable: Outputs): set<nat> {
    set x | x in order && x in usable
  }

  /** What marking steps as done keeps: exact counters, and an output for each of them. */
  ghost predicate Marked(wf: Workflow, st: State, usable: Outputs) {
    && Counted(wf, st.waiting, Elems(st.resumed), {})
    && st.outputs.Keys == Elems(st.resumed) <= usable.Keys
    && (forall x | x in Elems(st.resumed) :: st.outputs[x] == usable[x])
    && st == Fresh(wf).(waiting := st.waiting, outputs := st.outputs, resumed := st.resumed)
  }

  lemma {:induction false} ResumeOneKeeps(wf: Workflow, st: State, y: nat, usable: Outputs)
    requires Marked(wf, st, usable) && y in usable && y !in Elems(st.resumed)
    ensures ResumeOne(wf, st, y, usable[y]).Some?
    ensures Marked(wf, ResumeOne(wf, st, y, usable[y]).value, usable)
    ensures Elems(ResumeOne(wf, st, y, usable[y]).value.resumed) == Elems(st.resumed) + {y}
  {
    NewSource(wf, st.waiting, Elems(st.resumed), {}, y);
    assert {} + Edges(y, DependentsOf(wf, y)) == Edges(y, DependentsOf(wf, y));
    assert Elems(st.resumed + [y]) == Elems(st.resumed) + {y};
    DiscountKeeps(wf, st.waiting, Elems(st.resumed) + {y}, y, DependentsOf(wf, y));
  }

  lemma {:induction false} ResumeKeeps(wf: Workflow, st: State, order: seq<nat>, usable: Outputs)
    requires Marked(wf, st, usable) && |st.waiting| == |wf|
    requires Distinct(order) && (forall x | x in order :: x !in Elems(st.resumed))
    ensures Resume(wf, st, order, usable).Some?
    ensures Marked(wf, Resume(wf, st, order, usable).value, usable)
    ensures Elems(Resume(wf, st, order, usable).value.resumed) == Elems(st.resumed) + Done(order, usable)
    decreases |order|
  {
    if order != [] {
      var y, rest := order[0], order[1..];
      assert order == [y] + rest && y !in rest;
      if y !in usable {
        ResumeKeeps(wf, st, rest, usable);
      } else {
        ResumeOneKeeps(wf, st, y, usable);
        ResumeKeeps(wf, ResumeOne(wf, st, y, usable[y]).value, rest, usable);
      }
    }
  }

  /** A step's counter is zero exactly when it lists no dependency twice and has heard from all. */
  lemma {:induction false} ZeroMeansHeard(wf: Workflow, waiting: seq<nat>, sources: set<nat>, x: nat)
    requires Counted(wf, waiting, sources, {}) && x < |wf|
    ensures waiting[x] == 0 <==> Deps(wf, x) <= sources && Distinct(wf[x].dependsOn)
  {
    var heard := Heard(wf, sources, {}, x);
    assert heard <= Deps(wf, x);
    SubsetSize(heard, Deps(wf, x));
    DepsSize(wf[x].dependsOn);
    if Deps(wf, x) <= sources { assert heard == Deps(wf, x); }
  }

  lemma {:induction false} FreshMarked(wf: Workflow, usable: Outputs)
    ensures Marked(wf, Fresh(wf), usable)
  {
    assert Elems([]) == {};
    forall x: nat | x < |wf| ensures Heard(wf, {}, {}, x) == {} {}
  }

  /** Once everything resumable is marked, what is unblocked is exactly what is active. */
  lemma {:induction false} MarkedPlaced(wf: Workflow, mid: State, usable: Outputs, st: State)
    requires Marked(wf, mid, usable) && (forall x | x in Elems(mid.resumed) :: x < |wf|)
    requires st == mid.(ready := Unblocked(mid, |wf|))
    ensures Inv(wf, st, {}, {}) && WellSized(wf, st)
  {
    assert Sources(st, {}) == Elems(st.resumed);
    forall x: nat | x < |wf| ensures x in Active(st) <==> st.waiting[x] == 0 && !Idle(wf, Elems(st.resumed), x) {
      ZeroMeansHeard(wf, st.waiting, Elems(st.resumed), x);
    }
    forall i | 0 <= i < |st.ready| ensures st.ready[i] < |wf| { assert st.ready[i] in st.ready; }
  }

  lemma {:induction false} StartInv(wf: Workflow, order: seq<nat>, usable: Outputs)
    requires Topological(wf, order)
    ensures Start(wf, order, usable).Some?
    ensures var st := Start(wf, order, usable).value;
            Inv(wf, st, {}, {}) && WellSized(wf, st)
    ensures var st := Start(wf, order, usable).value;
            && Elems(st.resumed) == Done(order, usable) == st.outputs.Keys
            && (forall x | x in Done(order, usable) :: st.outputs[x] == usable[x])
            && st.running == map[] && st.results == map[] && st.abandoned == []
  {
    FreshMarked(wf, usable);
    assert Elems(Fresh(wf).resumed) == {};
    ResumeKeeps(wf, Fresh(wf), order, usable);
    var mid := Resume(wf, Fresh(wf), order, usable).value;
    MarkedPlaced(wf, mid, usable, Start(wf, order, usable).value);
  }

  // ---- What a run keeps ----

  function Steps(events: seq<Event>): seq<nat> {
    seq(|events|, i requires 0 <= i < |events| => events[i].step)
  }

  predicate FailureFree(st: State, s: set<nat>) {
    forall x | x in s && x in st.results :: st.results[x].success
  }

  /** On `s`, everything finished has the reference output and everything submitted is
      the reference task. */
  predicate Faithful(wf: Workflow, st: State, v: Outputs, s: set<nat>) {
    && st.outputs.Keys <= st.results.Keys + Elems(st.resumed)
    && (forall x | x in s && x in st.results.Keys + Elems(st.resumed) :: SameAt(st.outputs, v, x))
    && (forall x | x in s && x in st.running :: x < |wf| && st.running[x] == TaskFor(wf, x, v))
  }

  /** In a set closed under dependencies with no failure in it, nothing is given up on. */
  lemma {:induction false} NotAbandoned(wf: Workflow, st: State, quit: set<nat>, order: seq<nat>, s: set<nat>, i: nat)
    requires Placed(wf, st, quit) && Topological(wf, order) && i < |order|
    requires Closed(wf, s) && FailureFree(st, s) && order[i] in s
    ensures order[i] !in Elems(st.abandoned)
  {
    if order[i] in Elems(st.abandoned) {
      assert Doomed(wf, st, quit, order[i]);
      var d :| d in Deps(wf, order[i]) && (d in quit || (d in st.results && !st.results[d].success));
      var j := DepBefore(wf, order, i, d);
      NotAbandoned(wf, st, quit, order, s, j);
    }
  }

  lemma {:induction false} NothingAbandoned(wf: Workflow, st: State, quit: set<nat>, order: seq<nat>, s: set<nat>)
    requires Placed(wf, st, quit) && Topological(wf, order)
    requires Closed(wf, s) && FailureFree(st, s)
    ensures s !! Elems(st.abandoned) && s !! quit
  {
    forall x | x in s ensures x !in Elems(st.abandoned) {
      var i := PlaceOf(wf, order, x);
      NotAbandoned(wf, st, quit, order, s, i);
    }
  }

  lemma {:induction false} AdvanceKeeps(wf: Workflow, st: State, quit: set<nat>, e: Event) returns (quit': set<nat>)
    requires Inv(wf, st, quit, {}) && WellSized(wf, st) && st.ready == []
    requires e.step in st.running && e.step !in st.resumed
    requires e.result.success || Spares(wf, st, e.step)
    ensures Advance(wf, st, e).Some?
    ensures var next := Advance(wf, st, e).value;
            && Inv(wf, next, quit', {}) && WellSized(wf, next) && next.ready == []
            && (e.result.success ==> quit' == quit && next.abandoned == st.abandoned)
  {
    quit' := CompleteKeeps(wf, st, quit, e.step, e.result);
    var mid := Complete(wf, st, e.step, e.result).value;
    LaunchKeeps(wf, mid, quit');
  }

  /** What one finish records, and what it submits. */
  lemma {:induction false} AdvanceRecords(wf: Workflow, st: State, e: Event)
    requires WellSized(wf, st) && Advance(wf, st, e).Some?
    ensures var next := Advance(wf, st, e).value;
            && next.results == st.results[e.step := e.result]
            && next.resumed == st.resumed
            && next.outputs == Put(st.outputs, e.step, e.result.outputId)
    ensures var next := Advance(wf, st, e).value;
            forall x | x in next.running ::
              || (x in st.running && next.running[x] == st.running[x])
              || (x < |wf| && next.running[x] == TaskFor(wf, x, next.outputs))
  {
  }

  /** What everything the new outputs are compared with needs to know. */
  ghost predicate Before(wf: Workflow, out: Task -> Option<DataId>, v: Outputs, st: State, quit: set<nat>,
                         e: Event, s: set<nat>) {
    && Inv(wf, st, quit, {}) && WellSized(wf, st) && st.ready == []
    && e.step in st.running && e.step !in st.resumed
    && (e.result.success || Spares(wf, st, e.step))
    && Possible(out, st.running[e.step], e.result)
    && Fixpoint(wf, out, v) && Closed(wf, s) && Faithful(wf, st, v, s)
    && Advance(wf, st, e).Some? && FailureFree(Advance(wf, st, e).value, s)
  }

  lemma {:induction false} OutputsFaithful(wf: Workflow, out: Task -> Option<DataId>, v: Outputs, st: State,
                                           quit: set<nat>, e: Event, s: set<nat>)
    requires Before(wf, out, v, st, quit, e, s)
    ensures var next := Advance(wf, st, e).value;
            && next.outputs.Keys <= next.results.Keys + Elems(next.resumed)
            && (forall x | x in s && x in next.results.Keys + Elems(next.resumed) :: SameAt(next.outputs, v, x))
  {
    AdvanceRecords(wf, st, e);
    var next := Advance(wf, st, e).value;
    forall x | x in s && x in next.results.Keys + Elems(next.resumed) ensures SameAt(next.outputs, v, x) {
      if x == e.step {
        assert x in Active(st) && next.results[x].success;
        assert SameAt(v, Put(map[], x, out(TaskFor(wf, x, v))), x);
      } else {
        assert SameAt(st.outputs, v, x);
      }
    }
  }

  lemma {:induction false} AdvanceFaithful(wf: Workflow, out: Task -> Option<DataId>, order: seq<nat>, v: Outputs,
                        st: State, quit: set<nat>, e: Event, s: set<nat>)
    requires Before(wf, out, v, st, quit, e, s) && Topological(wf, order)
    ensures Faithful(wf, Advance(wf, st, e).value, v, s)
  {
    var quit' := AdvanceKeeps(wf, st, quit, e);
    var next := Advance(wf, st, e).value;
    NothingAbandoned(wf, next, quit', order, s);
    OutputsFaithful(wf, out, v, st, quit, e, s);
    AdvanceRecords(wf, st, e);
    forall x | x in s && x in next.running ensures x < |wf| && next.running[x] == TaskFor(wf, x, v) {
      if x !in st.running || next.running[x] != st.running[x] {
        assert Deps(wf, x) <= Sources(next, quit') by {
          assert x in Active(next);
          ZeroMeansHeard(wf, next.waiting, Sources(next, quit'), x);
        }
        forall d | d in wf[x].dependsOn ensures SameAt(next.outputs, v, d) {
          assert d in Deps(wf, x) && d in s;
        }
        InputsAgree(wf[x].task.inputs, wf[x].dependsOn, next.outputs, v);
      }
    }
  }
}
