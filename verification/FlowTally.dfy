/** The counters of a run that resumes any set of steps, closed under dependencies or not.
    A resumed step that waits on something not resumed may run again, and whatever waits
    on it then hears from it twice. */
module FlowTally {
  import opened Core
  import opened Workflows
  import opened Ancestry
  import opened Flows
  import opened FlowInvariant
  import opened FlowRuns
  import opened FlowTheorems
  import opened FlowIsolation

  // ---- What the counters say ----

  /** The counters as they were before anything was marked as resumed. */
  function Undiscounted(wf: Workflow, waiting: seq<nat>, resumed: set<nat>): (r: seq<nat>)
    requires |waiting| == |wf|
    ensures |r| == |wf|
  {
    seq(|wf|, x requires 0 <= x < |wf| => waiting[x] + |Deps(wf, x) * resumed|)
  }

  /** Each step has taken one off for every dependency resumed, and one for every
      dependency that told it, along edges no longer pending. */
  predicate Tally(wf: Workflow, waiting: seq<nat>, resumed: set<nat>, told: set<nat>, pending: set<(nat, nat)>) {
    |waiting| == |wf| && Counted(wf, Undiscounted(wf, waiting, resumed), told, pending)
  }

  /** An active step has nothing left to wait for and is in one place; those that told
      their dependents have come back or were given up on. */
  predicate InPlace(wf: Workflow, st: State, told: set<nat>) {
    && |st.waiting| == |wf|
    && (forall x | x in Active(st) :: x < |wf| && st.waiting[x] == 0)
    && Elems(st.ready) !! st.running.Keys !! st.results.Keys !! Elems(st.abandoned)
    && st.results.Keys <= told <= st.results.Keys + Elems(st.abandoned)
  }

  // ---- One decrement ----

  lemma {:induction false} TakeOne(wf: Workflow, waiting: seq<nat>, resumed: set<nat>, told: set<nat>,
                                   pending: set<(nat, nat)>, rest: set<(nat, nat)>, from: nat, x: nat)
    requires Tally(wf, waiting, resumed, told, pending) && x < |wf| && from in Deps(wf, x) && from in told
    requires pending == rest + {(from, x)} && (from, x) !in rest && waiting[x] > 0
    ensures Tally(wf, waiting[x := waiting[x] - 1], resumed, told, rest)
  {
    var before := Undiscounted(wf, waiting, resumed);
    Deliver(wf, before, told, pending, rest, from, x);
    hide Counted;
    assert Undiscounted(wf, waiting[x := waiting[x] - 1], resumed) == before[x := before[x] - 1];
  }

  lemma {:induction false} TellMore(wf: Workflow, waiting: seq<nat>, resumed: set<nat>, told: set<nat>,
                                    pending: set<(nat, nat)>, y: nat)
    requires Tally(wf, waiting, resumed, told, pending) && y !in told
    ensures Tally(wf, waiting, resumed, told + {y}, pending + Edges(y, DependentsOf(wf, y)))
  {
    NewSource(wf, Undiscounted(wf, waiting, resumed), told, pending, y);
  }

  /** After its counter drops, `x` is left alone, made ready, or abandoned. */
  predicate Shifted(wf: Workflow, st: State, next: State, told: set<nat>, told': set<nat>, x: nat)
    requires x < |wf|
  {
    && |st.waiting| == |wf| && st.waiting[x] > 0
    && next == st.(waiting := st.waiting[x := st.waiting[x] - 1], ready := next.ready, abandoned := next.abandoned)
    && (if next.waiting[x] > 0 then
          next.ready == st.ready && next.abandoned == st.abandoned && told' == told
        else
          || (next.ready == st.ready + [x] && next.abandoned == st.abandoned && told' == told)
          || (&& next.ready == st.ready && next.abandoned == st.abandoned + [x]
              && (told' == told || told' == told + {x})))
  }

  lemma {:induction false} ShiftKeeps(wf: Workflow, st: State, next: State, told: set<nat>, told': set<nat>, x: nat)
    requires InPlace(wf, st, told) && x < |wf| && Shifted(wf, st, next, told, told', x)
    ensures InPlace(wf, next, told')
    ensures x !in told && x !in Active(st)
  {
    assert x !in Active(st);
    assert Elems(st.ready + [x]) == Elems(st.ready) + {x};
    assert Elems(st.abandoned + [x]) == Elems(st.abandoned) + {x};
    assert Active(next) == Active(st) + if next.waiting[x] == 0 then {x} else {};
  }

  // ---- Giving up ----

  lemma {:induction false} GiveUpTally(wf: Workflow, st: State, told: set<nat>, pending: set<(nat, nat)>, y: nat,
                                       further: seq<nat>)
    requires Tally(wf, st.waiting, Elems(st.resumed), told, pending + Edges(y, further)) && InPlace(wf, st, told)
    requires y in told && Distinct(further) && Within(further, |st.waiting|) && GiveUpOn(st, further).Some?
    requires forall x | x in further :: x < |wf| && y in Deps(wf, x)
    requires Edges(y, further) !! pending
    ensures var next := GiveUpOn(st, further).value;
            Tally(wf, next.waiting, Elems(st.resumed), told, pending) && InPlace(wf, next, told)
    decreases |further|
  {
    hide Tally, InPlace;
    if further == [] {
      assert pending + Edges(y, further) == pending;
    } else {
      var x, rest := further[0], further[1..];
      EdgesSplit(y, further);
      assert pending + Edges(y, further) == pending + Edges(y, rest) + {(y, x)};
      hide Edges;
      assert x in further && |st.waiting| == |wf| by { TallySize(wf, st, told, pending + Edges(y, further)); }
      TakeOne(wf, st.waiting, Elems(st.resumed), told, pending + Edges(y, further), pending + Edges(y, rest), y, x);
      ShiftKeeps(wf, st, Dropped(st, x), told, told, x);
      GiveUpTally(wf, Dropped(st, x), told, pending, y, rest);
    }
  }

  lemma {:induction false} TallySize(wf: Workflow, st: State, told: set<nat>, pending: set<(nat, nat)>)
    requires Tally(wf, st.waiting, Elems(st.resumed), told, pending)
    ensures |st.waiting| == |wf|
  {}

  // ---- Releasing ----

  /** One dependent told of a step that came back. */
  lemma {:induction false} HearTally(wf: Workflow, st: State, told: set<nat>, step: nat, succeeded: bool, x: nat,
                                     rest: set<(nat, nat)>)
    returns (told': set<nat>)
    requires Tally(wf, st.waiting, Elems(st.resumed), told, rest + {(step, x)}) && (step, x) !in rest
    requires InPlace(wf, st, told) && step in st.results && x < |wf| && step in Deps(wf, x)
    requires forall d | (x, d) in rest :: false
    requires Hear(wf, st, step, succeeded, x).Some?
    ensures var next := Hear(wf, st, step, succeeded, x).value;
            Tally(wf, next.waiting, Elems(st.resumed), told', rest) && InPlace(wf, next, told')
    ensures succeeded ==> told' == told && Hear(wf, st, step, succeeded, x).value.abandoned == st.abandoned
    ensures succeeded ==> Elems(Hear(wf, st, step, succeeded, x).value.ready) <= Elems(st.ready) + {x}
  {
    assert step in told && step !in st.abandoned by { assert step !in Elems(st.abandoned); }
    assert Elems(st.ready + [x]) == Elems(st.ready) + {x};
    hide Edges, GiveUpOn, Active;
    TakeOne(wf, st.waiting, Elems(st.resumed), told, rest + {(step, x)}, rest, step, x);
    hide Tally;
    var less := st.(waiting := st.waiting[x := st.waiting[x] - 1]);
    told' := told;
    if less.waiting[x] > 0 {
      ShiftKeeps(wf, st, less, told, told, x);
    } else if succeeded {
      ShiftKeeps(wf, st, less.(ready := less.ready + [x]), told, told, x);
    } else {
      told' := told + {x};
      ShiftKeeps(wf, st, less.(abandoned := less.abandoned + [x]), told, told', x);
      hide InPlace;
      AbandonTally(wf, less.(abandoned := less.abandoned + [x]), told, rest, x);
    }
  }

  /** A step given up on tells its own dependents. */
  lemma {:induction false} AbandonTally(wf: Workflow, st: State, told: set<nat>, rest: set<(nat, nat)>, x: nat)
    requires Tally(wf, st.waiting, Elems(st.resumed), told, rest) && InPlace(wf, st, told + {x}) && x !in told
    requires |st.waiting| == |wf| && GiveUpOn(st, DependentsOf(wf, x)).Some?
    requires forall d | (x, d) in rest :: false
    ensures var next := GiveUpOn(st, DependentsOf(wf, x)).value;
            Tally(wf, next.waiting, Elems(st.resumed), told + {x}, rest) && InPlace(wf, next, told + {x})
  {
    hide Tally, InPlace, GiveUpOn;
    TellMore(wf, st.waiting, Elems(st.resumed), told, rest, x);
    GiveUpTally(wf, st, told + {x}, rest, x, DependentsOf(wf, x));
  }

  lemma {:induction false} ReleaseTally(wf: Workflow, st: State, told: set<nat>, step: nat, succeeded: bool,
                                        dependents: seq<nat>)
    returns (told': set<nat>)
    requires Tally(wf, st.waiting, Elems(st.resumed), told, Edges(step, dependents)) && InPlace(wf, st, told)
    requires |st.waiting| == |wf| && step in st.results && Distinct(dependents) && Within(dependents, |wf|)
    requires forall x | x in dependents :: x < |wf| && step in Deps(wf, x) && x != step
    requires Release(wf, st, step, succeeded, dependents).Some?
    ensures var next := Release(wf, st, step, succeeded, dependents).value;
            Tally(wf, next.waiting, Elems(st.resumed), told', {}) && InPlace(wf, next, told')
    ensures succeeded ==> told' == told && Release(wf, st, step, succeeded, dependents).value.abandoned == st.abandoned
    ensures succeeded ==>
              Elems(Release(wf, st, step, succeeded, dependents).value.ready) <= Elems(st.ready) + Elems(dependents)
    decreases |dependents|
  {
    hide Tally, InPlace, Hear;
    if dependents == [] {
      assert Edges(step, dependents) == {};
      return told;
    }
    var x, rest := dependents[0], dependents[1..];
    EdgesSplit(step, dependents);
    assert x in dependents && dependents == [x] + rest;
    assert forall z | z in rest :: z in dependents;
    told' := HearTally(wf, st, told, step, succeeded, x, Edges(step, rest));
    told' := ReleaseTally(wf, Hear(wf, st, step, succeeded, x).value, told', step, succeeded, rest);
  }

  // ---- A whole finish ----

  /** A step that came back tells everything that depends on it. */
  lemma {:induction false} LandedTally(wf: Workflow, st: State, told: set<nat>, e: Event)
    requires Tally(wf, st.waiting, Elems(st.resumed), told, {}) && InPlace(wf, st, told) && e.step in st.running
    ensures var now := Landed(st, e.step, e.result);
            && Tally(wf, now.waiting, Elems(now.resumed), told + {e.step}, Edges(e.step, DependentsOf(wf, e.step)))
            && InPlace(wf, now, told + {e.step})
    ensures e.step !in told
  {
    var now := Landed(st, e.step, e.result);
    assert Active(now) == Active(st);
    TellMore(wf, st.waiting, Elems(st.resumed), told, {}, e.step);
    hide Tally;
    assert {} + Edges(e.step, DependentsOf(wf, e.step)) == Edges(e.step, DependentsOf(wf, e.step));
  }

  lemma {:induction false} NotItsOwn(wf: Workflow, order: seq<nat>, step: nat)
    requires Topological(wf, order)
    ensures forall x | x in DependentsOf(wf, step) :: x < |wf| && step in Deps(wf, x) && x != step
  {
    forall x | x in DependentsOf(wf, step) ensures x < |wf| && step in Deps(wf, x) && x != step {
      var i := PlaceOf(wf, order, x);
      var j := DepBefore(wf, order, i, step);
    }
  }

  lemma {:induction false} LaunchTally(wf: Workflow, st: State, told: set<nat>)
    requires InPlace(wf, st, told) && Within(st.ready, |wf|)
    ensures InPlace(wf, Launch(wf, st), told)
  {
    assert Active(Launch(wf, st)) == Active(st);
  }

  /** What a run keeps between two finishes, whatever it resumed. */
  ghost predicate Even(wf: Workflow, st: State, told: set<nat>) {
    && Tally(wf, st.waiting, Elems(st.resumed), told, {}) && InPlace(wf, st, told)
    && WellSized(wf, st) && st.ready == []
  }

  /** Every finish keeps it, as long as no counter goes below zero. */
  lemma {:induction false} AdvanceEven(wf: Workflow, order: seq<nat>, st: State, told: set<nat>, e: Event)
    returns (told': set<nat>)
    requires Topological(wf, order) && Even(wf, st, told) && e.step in st.running && Advance(wf, st, e).Some?
    ensures Even(wf, Advance(wf, st, e).value, told')
    ensures e.step !in told && e.step in told' && e.step !in st.results
    ensures e.result.success ==> told' == told + {e.step} && Advance(wf, st, e).value.abandoned == st.abandoned
    ensures e.result.success ==>
              forall x | x in Advance(wf, st, e).value.running.Keys - st.running.Keys :: x in DependentsOf(wf, e.step)
  {
    var now, dependents := Landed(st, e.step, e.result), DependentsOf(wf, e.step);
    LandedTally(wf, st, told, e);
    NotItsOwn(wf, order, e.step);
    assert e.step !in st.results;
    hide Tally, InPlace, Topological;
    told' := ReleaseTally(wf, now, told + {e.step}, e.step, e.result.success, dependents);
    var mid := Release(wf, now, e.step, e.result.success, dependents).value;
    hide Release;
    LaunchTally(wf, mid, told');
    assert e.step in told' by { ResultsTold(wf, mid, told'); }
  }

  lemma {:induction false} ResultsTold(wf: Workflow, st: State, told: set<nat>)
    requires InPlace(wf, st, told)
    ensures st.results.Keys <= told
  {}

  /** It holds from the start. */
  lemma {:induction false} StartEven(wf: Workflow, order: seq<nat>, usable: Outputs)
    requires Topological(wf, order)
    ensures Start(wf, order, usable).Some? && WellSized(wf, Start(wf, order, usable).value)
    ensures Even(wf, Launch(wf, Start(wf, order, usable).value), {})
  {
    Launched(wf, order, usable);
    var st := Launch(wf, Start(wf, order, usable).value);
    hide Start, Launch, Steady;
    SteadyEven(wf, st);
  }

  lemma {:induction false} SteadyEven(wf: Workflow, st: State)
    requires Steady(wf, st, {}) && st.results == map[] && st.abandoned == []
    ensures Even(wf, st, {})
  {
    assert Sources(st, {}) == Elems(st.resumed);
    hide Counted, Tally, InPlace, Placed;
    TallyStarts(wf, st.waiting, Elems(st.resumed));
    StartsInPlace(wf, st);
  }

  lemma {:induction false} StartsInPlace(wf: Workflow, st: State)
    requires Placed(wf, st, {}) && st.results == map[] && st.abandoned == []
    ensures InPlace(wf, st, {})
  {}

  lemma {:induction false} TallyStarts(wf: Workflow, waiting: seq<nat>, resumed: set<nat>)
    requires Counted(wf, waiting, resumed, {})
    ensures Tally(wf, waiting, resumed, {}, {})
  {
    forall x: nat | x < |wf|
      ensures Undiscounted(wf, waiting, resumed)[x] == |wf[x].dependsOn| && Heard(wf, {}, {}, x) == {}
    {
      assert Heard(wf, resumed, {}, x) == Deps(wf, x) * resumed;
    }
  }

  // ---- Where no step hears twice ----

  lemma {:induction false} Sums(wf: Workflow, st: State, told: set<nat>, x: nat)
    requires NoDuplicates(wf) && Even(wf, st, told) && x < |wf|
    ensures var deps, resumed := Deps(wf, x), Elems(st.resumed);
            st.waiting[x] + |deps * (resumed + told)| + |deps * (resumed * told)| == |deps|
  {
    var deps, resumed := Deps(wf, x), Elems(st.resumed);
    assert Heard(wf, told, {}, x) == deps * told;
    DepsSize(wf[x].dependsOn);
    assert Undiscounted(wf, st.waiting, resumed)[x] == st.waiting[x] + |deps * resumed|;
    hide Even, Counted;
    Overlap(deps * resumed, deps * told);
    assert deps * resumed + deps * told == deps * (resumed + told);
    assert deps * resumed * (deps * told) == deps * (resumed * told);
  }

  lemma {:induction false} Overlap(a: set<nat>, b: set<nat>)
    ensures |a| + |b| == |a + b| + |a * b|
  {
    assert b == (b - a) + a * b;
    assert a + b == a + (b - a);
  }

  /** A step that went out, and heard from nothing twice, has heard from everything. */
  lemma {:induction false} AllHeard(wf: Workflow, st: State, told: set<nat>, x: nat)
    requires NoDuplicates(wf) && Even(wf, st, told) && x in Active(st) && x < |wf|
    requires forall d | d in Deps(wf, x) && d in told :: d !in Elems(st.resumed)
    ensures Deps(wf, x) <= Elems(st.resumed) + told
  {
    var deps, resumed := Deps(wf, x), Elems(st.resumed);
    assert st.waiting[x] == 0;
    Sums(wf, st, told, x);
    assert deps * (resumed * told) == {};
    SubsetSize(deps * (resumed + told), deps);
  }

  lemma {:induction false} FirstDependent(wf: Workflow, order: seq<nat>, d: nat, k: nat) returns (first: nat)
    requires Topological(wf, order) && k < |order| && d in Deps(wf, order[k])
    ensures first < |order| && d in Deps(wf, order[first])
    ensures forall i | 0 <= i < first :: d !in Deps(wf, order[i])
    decreases k
  {
    if i :| 0 <= i < k && d in Deps(wf, order[i]) {
      first := FirstDependent(wf, order, d, i);
    } else {
      first := k;
    }
  }

  /** The first step to depend on `d` depends otherwise on dependencies of `d` alone. */
  lemma {:induction false} FirstReadsAbove(wf: Workflow, order: seq<nat>, d: nat, k: nat)
    requires Topological(wf, order) && DirectlyChained(wf) && k < |order| && d < |wf| && d in Deps(wf, order[k])
    requires forall i | 0 <= i < k :: d !in Deps(wf, order[i])
    ensures Deps(wf, order[k]) <= Deps(wf, d) + {d}
  {
    assert DirectAt(wf, order[k]);
    forall y | y in Deps(wf, order[k]) && y != d ensures y in Deps(wf, d) {
      var i := DepBefore(wf, order, k, y);
      assert Direct(wf, y, d);
    }
  }

  /** Where of any two dependencies of a step one is a dependency of the other, nothing that
      was resumed and has dependents tells them again: the first of them would have been
      told more often than it has dependencies. */
  lemma {:induction false} NoDouble(wf: Workflow, order: seq<nat>, st: State, told: set<nat>, i: nat, m: nat)
    requires NoDuplicates(wf) && Topological(wf, order) && DirectlyChained(wf) && Even(wf, st, told)
    requires i < |order| && m < |wf| && order[i] in Deps(wf, m) && order[i] in told
    ensures order[i] !in Elems(st.resumed)
    decreases i
  {
    var d, resumed := order[i], Elems(st.resumed);
    var k := PlaceOf(wf, order, m);
    k := FirstDependent(wf, order, d, k);
    forall x | x in Deps(wf, d) && x in told ensures x !in resumed {
      var j := DepBefore(wf, order, i, x);
      NoDouble(wf, order, st, told, j, d);
    }
    assert d in Active(st);
    FirstReadsAbove(wf, order, d, k);
    hide Topological, DirectlyChained;
    AllHeard(wf, st, told, d);
    var deps := Deps(wf, order[k]);
    Sums(wf, st, told, order[k]);
    hide Even, NoDuplicates;
    assert deps * (resumed + told) == deps;
    assert deps * (resumed * told) == {};
    assert d in deps && d !in deps * (resumed * told);
  }

  /** So there whatever went out has heard from everything it depends on, once. */
  lemma {:induction false} HeardOnce(wf: Workflow, order: seq<nat>, st: State, told: set<nat>, x: nat)
    requires NoDuplicates(wf) && Topological(wf, order) && DirectlyChained(wf) && Even(wf, st, told)
    requires x in Active(st) && x < |wf|
    ensures Deps(wf, x) <= Elems(st.resumed) + told
    ensures forall d | d in Deps(wf, x) && d in told :: d !in Elems(st.resumed)
  {
    var i := PlaceOf(wf, order, x);
    forall d | d in Deps(wf, x) && d in told ensures d !in Elems(st.resumed) {
      var j := DepBefore(wf, order, i, d);
      NoDouble(wf, order, st, told, j, x);
    }
    AllHeard(wf, st, told, x);
  }
}
