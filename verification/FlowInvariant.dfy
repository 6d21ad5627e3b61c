/** What every finished step keeps true of the runner, whatever the order they finish in.

    `quit` is the set of abandoned steps that passed the news on to their own dependents.
    The runner does not keep it: the counters are all it has of it. */
module FlowInvariant {
  import opened Core
  import opened Workflows
  import opened Flows

  function Active(st: State): set<nat> {
    Elems(st.ready) + st.running.Keys + st.results.Keys + Elems(st.abandoned)
  }

  /** Steps that take one off the counters of everything waiting on them. */
  function Sources(st: State, quit: set<nat>): set<nat> {
    Elems(st.resumed) + st.results.Keys + quit
  }

  /** A resumed step whose dependencies were all resumed too: nothing will touch it. */
  predicate Idle(wf: Workflow, resumed: set<nat>, x: nat)
    requires x < |wf|
  {
    x in resumed && Deps(wf, x) <= resumed
  }

  predicate Closed(wf: Workflow, s: set<nat>) {
    forall x | x in s :: x < |wf| && Deps(wf, x) <= s
  }

  /** Nothing that waits on `step` was resumed. */
  predicate Spares(wf: Workflow, st: State, step: nat) {
    forall x | x in DependentsOf(wf, step) :: x !in Elems(st.resumed)
  }

  lemma {:induction false} ClosedSpares(wf: Workflow, st: State, step: nat)
    requires Closed(wf, Elems(st.resumed)) && step !in st.resumed
    ensures Spares(wf, st, step)
  {
    forall x | x in DependentsOf(wf, step) ensures x !in Elems(st.resumed) {
      assert step in Deps(wf, x) && step !in Elems(st.resumed);
    }
  }

  function Edges(from: nat, to: seq<nat>): set<(nat, nat)> {
    set x | x in to :: (from, x)
  }

  /** The dependencies that have taken one off the counter of `x`: the sources among
      them, except along edges still pending. */
  function Heard(wf: Workflow, sources: set<nat>, pending: set<(nat, nat)>, x: nat): set<nat>
    requires x < |wf|
  {
    set d | d in Deps(wf, x) && d in sources && (d, x) !in pending
  }

  predicate Counted(wf: Workflow, waiting: seq<nat>, sources: set<nat>, pending: set<(nat, nat)>) {
    && |waiting| == |wf|
    && (forall x: nat | x < |wf| :: waiting[x] == |wf[x].dependsOn| - |Heard(wf, sources, pending, x)|)
  }

  /** Someone `x` depends on failed, or was itself given up on. */
  predicate Doomed(wf: Workflow, st: State, quit: set<nat>, x: nat)
    requires x < |wf|
  {
    exists d | d in Deps(wf, x) :: d in quit || (d in st.results && !st.results[d].success)
  }

  /** Who is where: a step is active exactly when its counter has reached zero, and is
      then in one place only. */
  predicate Placed(wf: Workflow, st: State, quit: set<nat>) {
    && |st.waiting| == |wf|
    && (forall x: nat | x < |wf| :: x in Active(st) <==> st.waiting[x] == 0 && !Idle(wf, Elems(st.resumed), x))
    && (forall x | x in Active(st) :: x < |wf|)
    && (forall x | x in Elems(st.resumed) :: x < |wf|)
    && Elems(st.ready) !! st.running.Keys !! st.results.Keys !! Elems(st.abandoned)
    && Elems(st.resumed) !! st.results.Keys !! quit
    && quit <= Elems(st.abandoned)
    && (forall x | x in Elems(st.abandoned) :: Doomed(wf, st, quit, x))
  }

  predicate Inv(wf: Workflow, st: State, quit: set<nat>, pending: set<(nat, nat)>) {
    && Counted(wf, st.waiting, Sources(st, quit), pending)
    && Placed(wf, st, quit)
  }

  // ---- One decrement ----

  /** Taking one off along a pending edge never goes below zero and keeps the count exact. */
  lemma {:induction false} Deliver(wf: Workflow, waiting: seq<nat>, sources: set<nat>, pending: set<(nat, nat)>,
                rest: set<(nat, nat)>, from: nat, x: nat)
    requires Counted(wf, waiting, sources, pending)
    requires x < |wf| && from in Deps(wf, x) && from in sources
    requires pending == rest + {(from, x)} && (from, x) !in rest
    ensures waiting[x] > 0
    ensures Counted(wf, waiting[x := waiting[x] - 1], sources, rest)
  {
    var before, after := Heard(wf, sources, pending, x), Heard(wf, sources, rest, x);
    assert after == before + {from};
    SubsetSize(after, Deps(wf, x));
    DepsSize(wf[x].dependsOn);
    forall z: nat | z < |wf| && z != x
      ensures Heard(wf, sources, pending, z) == Heard(wf, sources, rest, z)
    {}
  }

  /** A new source owes every step that depends on it. */
  lemma {:induction false} NewSource(wf: Workflow, waiting: seq<nat>, sources: set<nat>, pending: set<(nat, nat)>,
                                     y: nat)
    requires Counted(wf, waiting, sources, pending) && y !in sources
    ensures Counted(wf, waiting, sources + {y}, pending + Edges(y, DependentsOf(wf, y)))
  {
    forall z: nat | z < |wf|
      ensures Heard(wf, sources, pending, z)
           == Heard(wf, sources + {y}, pending + Edges(y, DependentsOf(wf, y)), z)
    {
      assert y in Deps(wf, z) <==> z in DependentsOf(wf, y);
    }
  }

  lemma {:induction false} DepsSize(deps: seq<nat>)
    ensures |Elems(deps)| <= |deps|
    ensures |Elems(deps)| == |deps| <==> Distinct(deps)
  {
    if deps != [] {
      var last := |deps| - 1;
      DepsSize(deps[..last]);
      assert deps == deps[..last] + [deps[last]];
      assert Elems(deps) == Elems(deps[..last]) + {deps[last]};
    }
  }

  /** After its counter drops, `x` is left alone, made ready, or abandoned. */
  predicate Moved(wf: Workflow, st: State, next: State, quit: set<nat>, quit': set<nat>, x: nat)
    requires x < |wf|
  {
    && |st.waiting| == |wf| && st.waiting[x] > 0
    && next == st.(waiting := st.waiting[x := st.waiting[x] - 1], ready := next.ready, abandoned := next.abandoned)
    && (if next.waiting[x] > 0 then
          next.ready == st.ready && next.abandoned == st.abandoned && quit' == quit
        else
          || (next.ready == st.ready + [x] && next.abandoned == st.abandoned && quit' == quit)
          || (&& next.ready == st.ready && next.abandoned == st.abandoned + [x]
              && (quit' == quit || (quit' == quit + {x} && x !in st.resumed))
              && Doomed(wf, st, quit, x)))
  }

  lemma {:induction false} StillDoomed(wf: Workflow, st: State, next: State, quit: set<nat>, quit': set<nat>, x: nat)
    requires x < |wf| && Doomed(wf, st, quit, x) && next.results == st.results && quit <= quit'
    ensures Doomed(wf, next, quit', x)
  {}

  lemma {:induction false} MovedKeeps(wf: Workflow, st: State, next: State, quit: set<nat>, quit': set<nat>, x: nat)
    requires Placed(wf, st, quit)
    requires x < |wf| && !Idle(wf, Elems(st.resumed), x) && Moved(wf, st, next, quit, quit', x)
    ensures Placed(wf, next, quit')
  {
    hide Doomed;
    assert x !in Active(st);
    assert Elems(st.ready + [x]) == Elems(st.ready) + {x};
    assert Elems(st.abandoned + [x]) == Elems(st.abandoned) + {x};
    assert Active(next) == Active(st) + if next.waiting[x] == 0 then {x} else {};
    forall z | z in Elems(next.abandoned) ensures Doomed(wf, next, quit', z) {
      StillDoomed(wf, st, next, quit, quit', z);
    }
  }

  // ---- Giving up ----

  /** The effect of one round of the give-up loop on the step at its head. */
  function Dropped(st: State, x: nat): State
    requires x < |st.waiting| && st.waiting[x] > 0
  {
    var less := st.(waiting := st.waiting[x := st.waiting[x] - 1]);
    if less.waiting[x] == 0 then less.(abandoned := less.abandoned + [x]) else less
  }

  lemma {:induction false} EdgesSplit(from: nat, to: seq<nat>)
    requires to != [] && Distinct(to)
    ensures Edges(from, to) == Edges(from, to[1..]) + {(from, to[0])}
    ensures (from, to[0]) !in Edges(from, to[1..])
  {
    assert to == [to[0]] + to[1..];
  }

  lemma {:induction false} DropPlaced(wf: Workflow, st: State, quit: set<nat>, y: nat, x: nat)
    requires Placed(wf, st, quit) && y in quit && x < |wf| && y in Deps(wf, x) && st.waiting[x] > 0
    ensures Placed(wf, Dropped(st, x), quit)
  {
    assert Doomed(wf, st, quit, x);
    assert !Idle(wf, Elems(st.resumed), x);
    hide Placed, Doomed, Idle;
    MovedKeeps(wf, st, Dropped(st, x), quit, quit, x);
  }

  lemma {:induction false} DropOne(wf: Workflow, st: State, quit: set<nat>, rest: set<(nat, nat)>, y: nat, x: nat)
    requires Inv(wf, st, quit, rest + {(y, x)}) && (y, x) !in rest
    requires y in quit && x < |wf| && y in Deps(wf, x)
    ensures st.waiting[x] > 0
    ensures Inv(wf, Dropped(st, x), quit, rest)
  {
    assert |st.waiting| == |wf|;
    hide Placed, Counted;
    Deliver(wf, st.waiting, Sources(st, quit), rest + {(y, x)}, rest, y, x);
    DropPlaced(wf, st, quit, y, x);
  }

  lemma {:induction false} GiveUpKeeps(wf: Workflow, st: State, quit: set<nat>,
                                       pending: set<(nat, nat)>, y: nat, further: seq<nat>)
    requires Inv(wf, st, quit, pending + Edges(y, further))
    requires y in quit && Distinct(further) && Within(further, |wf|) && |st.waiting| == |wf|
    requires forall x | x in further :: x < |wf| && y in Deps(wf, x)
    requires Edges(y, further) !! pending
    ensures GiveUpOn(st, further).Some?
    ensures Inv(wf, GiveUpOn(st, further).value, quit, pending)
    decreases |further|
  {
    hide Inv;
    if further == [] {
      assert pending + Edges(y, further) == pending;
    } else {
      var x, rest := further[0], further[1..];
      EdgesSplit(y, further);
      assert pending + Edges(y, further) == pending + Edges(y, rest) + {(y, x)};
      hide Edges;
      DropOne(wf, st, quit, pending + Edges(y, rest), y, x);
      GiveUpKeeps(wf, Dropped(st, x), quit, pending, y, rest);
    }
  }

  // ---- Releasing ----

  lemma {:induction false} HearKeeps(wf: Workflow, st: State, quit: set<nat>, step: nat, succeeded: bool, x: nat,
                                     rest: seq<nat>)
    returns (quit': set<nat>)
    requires Inv(wf, st, quit, Edges(step, rest) + {(step, x)}) && (step, x) !in Edges(step, rest)
    requires step in st.results && st.results[step].success == succeeded
    requires |st.waiting| == |wf| && x < |wf| && step in Deps(wf, x)
    requires step !in Elems(st.resumed) && (succeeded || x !in Elems(st.resumed))
    ensures Hear(wf, st, step, succeeded, x).Some?
    ensures Inv(wf, Hear(wf, st, step, succeeded, x).value, quit', Edges(step, rest)) && quit <= quit'
    ensures succeeded ==>
              quit' == quit && Hear(wf, st, step, succeeded, x).value.abandoned == st.abandoned
    ensures !succeeded ==> quit' == quit + if st.waiting[x] == 1 then {x} else {}
  {
    Deliver(wf, st.waiting, Sources(st, quit), Edges(step, rest) + {(step, x)}, Edges(step, rest), step, x);
    assert step !in st.abandoned by { assert step !in Elems(st.abandoned); }
    assert step !in Elems(st.resumed) && !Idle(wf, Elems(st.resumed), x);
    var less := st.(waiting := st.waiting[x := st.waiting[x] - 1]);
    if less.waiting[x] > 0 {
      MovedKeeps(wf, st, less, quit, quit, x);
      quit' := quit;
    } else if succeeded {
      MovedKeeps(wf, st, less.(ready := less.ready + [x]), quit, quit, x);
      quit' := quit;
    } else {
      Abandoning(wf, st, less.(abandoned := less.abandoned + [x]), quit, step, x, rest);
      quit' := quit + {x};
    }
  }

  lemma {:induction false} ReleaseKeeps(wf: Workflow, st: State, quit: set<nat>,
                                        step: nat, succeeded: bool, dependents: seq<nat>)
    returns (quit': set<nat>)
    requires Inv(wf, st, quit, Edges(step, dependents)) && |st.waiting| == |wf|
    requires step in st.results && st.results[step].success == succeeded
    requires Distinct(dependents) && Within(dependents, |wf|)
    requires forall x | x in dependents :: x < |wf| && step in Deps(wf, x)
    requires step !in Elems(st.resumed) && (succeeded || forall x | x in dependents :: x !in Elems(st.resumed))
    ensures Release(wf, st, step, succeeded, dependents).Some?
    ensures Inv(wf, Release(wf, st, step, succeeded, dependents).value, quit', {})
    ensures quit <= quit'
    ensures succeeded ==>
              quit' == quit && Release(wf, st, step, succeeded, dependents).value.abandoned == st.abandoned
    decreases |dependents|
  {
    if dependents == [] {
      assert Edges(step, dependents) == {};
      return quit;
    }
    var x, rest := dependents[0], dependents[1..];
    EdgesSplit(step, dependents);
    quit' := HearKeeps(wf, st, quit, step, succeeded, x, rest);
    quit' := ReleaseKeeps(wf, Hear(wf, st, step, succeeded, x).value, quit', step, succeeded, rest);
  }

  /** The first step given up on passes the news to its own dependents. */
  lemma {:induction false} Abandoning(wf: Workflow, st: State, next: State, quit: set<nat>, step: nat, x: nat,
                                      rest: seq<nat>)
    requires Placed(wf, st, quit) && x !in Elems(st.resumed)
    requires step in st.results && !st.results[step].success && x < |wf| && step in Deps(wf, x)
    requires st.waiting[x] == 1 && !Idle(wf, Elems(st.resumed), x)
    requires next == st.(waiting := st.waiting[x := 0], abandoned := st.abandoned + [x])
    requires Counted(wf, next.waiting, Sources(st, quit), Edges(step, rest))
    ensures GiveUpOn(next, DependentsOf(wf, x)).Some?
    ensures Inv(wf, GiveUpOn(next, DependentsOf(wf, x)).value, quit + {x}, Edges(step, rest))
  {
    assert x !in Active(st) && x !in Elems(st.resumed);
    assert Sources(next, quit + {x}) == Sources(st, quit) + {x};
    NewSource(wf, next.waiting, Sources(st, quit), Edges(step, rest), x);
    assert Doomed(wf, st, quit, x);
    MovedKeeps(wf, st, next, quit, quit + {x}, x);
    assert step != x;
    hide Placed, Counted;
    GiveUpKeeps(wf, next, quit + {x}, Edges(step, rest), x, DependentsOf(wf, x));
  }

  // ---- A whole finish ----

  /** A step coming back keeps everything, provided it was not one already resumed. */
  lemma {:induction false} CompleteKeeps(wf: Workflow, st: State, quit: set<nat>, step: nat, result: TaskResult)
    returns (quit': set<nat>)
    requires Inv(wf, st, quit, {})
    requires step in st.running && step !in st.resumed
    requires result.success || Spares(wf, st, step)
    ensures Complete(wf, st, step, result).Some?
    ensures Inv(wf, Complete(wf, st, step, result).value, quit', {})
    ensures quit <= quit'
    ensures result.success ==>
              quit' == quit && Complete(wf, st, step, result).value.abandoned == st.abandoned
  {
    var now := Landed(st, step, result);
    var dependents := DependentsOf(wf, step);
    assert step in Active(st) && step !in Sources(st, quit);
    assert Sources(now, quit) == Sources(st, quit) + {step};
    NewSource(wf, st.waiting, Sources(st, quit), {}, step);
    assert {} + Edges(step, dependents) == Edges(step, dependents);
    LandedPlaced(wf, st, quit, step, result);
    quit' := ReleaseKeeps(wf, now, quit, step, result.success, dependents);
  }

  lemma {:induction false} LandedPlaced(wf: Workflow, st: State, quit: set<nat>, step: nat, result: TaskResult)
    requires Placed(wf, st, quit) && step in st.running && step !in st.resumed
    ensures Placed(wf, Landed(st, step, result), quit)
  {
    var now := Landed(st, step, result);
    assert Active(now) == Active(st);
    forall z | z in Elems(now.abandoned) ensures Doomed(wf, now, quit, z) {
      assert Doomed(wf, st, quit, z);
      assert step !in st.results;
    }
  }

  lemma {:induction false} LaunchKeeps(wf: Workflow, st: State, quit: set<nat>)
    requires Inv(wf, st, quit, {}) && Within(st.ready, |wf|)
    ensures Inv(wf, Launch(wf, st), quit, {})
    ensures Launch(wf, st).running.Keys == st.running.Keys + Elems(st.ready)
  {
    var now := Launch(wf, st);
    assert Active(now) == Active(st);
    forall z | z in Elems(now.abandoned) ensures Doomed(wf, now, quit, z) {
      assert Doomed(wf, st, quit, z);
    }
  }
}
