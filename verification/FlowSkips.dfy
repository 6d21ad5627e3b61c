/** Which steps a run lists as skipped, and when that accounts for every step.

    A step that fails tells the steps waiting on it, in the order they were written. One
    that has heard from everything else gives up and tells its own in turn; those that
    give up on hearing from it are listed too, but tell nobody. */
module FlowSkips {
  import opened Core
  import opened Workflows
  import opened Ancestry
  import opened Flows
  import opened FlowInvariant
  import opened FlowRuns
  import opened FlowTheorems
  import opened FlowIsolation

  // ---- One failure ----

  /** With `heard` counted before, `x` gives up when it hears from `f`, and passes it on. */
  predicate GivesUp(wf: Workflow, heard: set<nat>, f: nat, x: nat)
    decreases x
  {
    && x < |wf| && f in Deps(wf, x)
    && (forall w | w in Deps(wf, x) && w != f :: w in heard || (w < x && GivesUp(wf, heard, f, w)))
  }

  function GivingUp(wf: Workflow, heard: set<nat>, f: nat): set<nat> {
    set x | x in Below(|wf|) && GivesUp(wf, heard, f, x)
  }

  lemma {:induction false} DependentsAscend(wf: Workflow, f: nat, n: nat)
    requires n <= |wf|
    ensures Sorted(DependentsBelow(wf, f, n))
  {
    if n > 0 {
      DependentsAscend(wf, f, n - 1);
      var before, all := DependentsBelow(wf, f, n - 1), DependentsBelow(wf, f, n);
      assert all == before || all == before + [n - 1];
      assert forall i | 0 <= i < |before| :: before[i] in before;
      hide DependentsBelow;
    }
  }

  /** One dependent left to hear from means it is the one still pending. */
  lemma {:induction false} OneLeft(wf: Workflow, waiting: seq<nat>, sources: set<nat>, f: nat, rest: seq<nat>, x: nat)
    requires Counted(wf, waiting, sources, Edges(f, rest) + {(f, x)}) && x < |wf|
    requires f in Deps(wf, x) && f in sources && Distinct(wf[x].dependsOn)
    ensures waiting[x] == 1 <==> Deps(wf, x) <= sources
  {
    var heard := Heard(wf, sources, Edges(f, rest) + {(f, x)}, x);
    assert heard == (Deps(wf, x) * sources) - {f};
    DepsSize(wf[x].dependsOn);
    assert |Deps(wf, x)| == |wf[x].dependsOn| && |Deps(wf, x) - {f}| == |Deps(wf, x)| - 1;
    SubsetSize(heard, Deps(wf, x) - {f});
    if Deps(wf, x) <= sources { assert heard == Deps(wf, x) - {f}; }
    if waiting[x] == 1 {
      forall d | d in Deps(wf, x) && d != f ensures d in sources { assert d in heard; }
    }
  }

  /** The dependents of `f` from the `k`-th on. */
  function Later(wf: Workflow, f: nat, k: nat): (r: seq<nat>)
    requires k <= |DependentsOf(wf, f)|
    ensures Within(r, |wf|)
  {
    DependentsOf(wf, f)[k..]
  }

  lemma {:induction false} LaterParts(wf: Workflow, f: nat, k: nat)
    requires k < |DependentsOf(wf, f)|
    ensures var x, left := DependentsOf(wf, f)[k], Later(wf, f, k);
            && x < |wf| && f in Deps(wf, x) && left != [] && left[0] == x
            && left[1..] == Later(wf, f, k + 1)
            && Edges(f, left) == Edges(f, left[1..]) + {(f, x)} && (f, x) !in Edges(f, left[1..])
  {
    var all := DependentsOf(wf, f);
    assert all[k] in all;
    assert Distinct(all[k..]);
    EdgesSplit(f, all[k..]);
  }

  /** Where the runner is while it tells them. */
  ghost predicate Telling(wf: Workflow, st: State, quit: set<nat>, f: nat, heard: set<nat>, k: nat)
    requires k <= |DependentsOf(wf, f)|
  {
    && |st.waiting| == |wf| && Inv(wf, st, quit, Edges(f, Later(wf, f, k)))
    && f in st.results && !st.results[f].success && f !in Elems(st.resumed) && Spares(wf, st, f)
    && Sources(st, quit) == heard + {f} + GaveUp(wf, heard, f, k)
  }

  lemma {:induction false} TellOne(wf: Workflow, st: State, quit: set<nat>, f: nat, heard: set<nat>, k: nat)
    returns (quit': set<nat>)
    requires NoDuplicates(wf) && k < |DependentsOf(wf, f)| && Telling(wf, st, quit, f, heard, k)
    ensures |st.waiting| == |wf| && DependentsOf(wf, f)[k] < |wf|
    ensures Hear(wf, st, f, false, DependentsOf(wf, f)[k]).Some?
    ensures var next := Hear(wf, st, f, false, DependentsOf(wf, f)[k]).value;
            Telling(wf, next, quit', f, heard, k + 1) && next.results == st.results && next.resumed == st.resumed
    ensures quit' == quit + (GaveUp(wf, heard, f, k + 1) - GaveUp(wf, heard, f, k))
  {
    hide Inv, Hear, GaveUp, GivesUp, Edges, Later, DependentsOf, NoDuplicates;
    var x := DependentsOf(wf, f)[k];
    assert x in DependentsOf(wf, f);
    LaterParts(wf, f, k);
    NextGivesUp(wf, st, quit, f, heard, k);
    GaveUpNext(wf, heard, f, k);
    quit' := HearKeeps(wf, st, quit, f, false, x, Later(wf, f, k + 1));
    var next := Hear(wf, st, f, false, x).value;
    assert Sources(next, quit') == heard + {f} + GaveUp(wf, heard, f, k + 1);
  }

  lemma {:induction false} InTwo(quit: set<nat>, a: set<nat>, b: set<nat>, c: set<nat>)
    requires a <= b <= c
    ensures quit + (b - a) + (c - b) == quit + (c - a)
  {}

  lemma {:induction false} TellNone(wf: Workflow, st: State, quit: set<nat>, f: nat, heard: set<nat>)
    requires Telling(wf, st, quit, f, heard, |DependentsOf(wf, f)|)
    ensures |st.waiting| == |wf| && Release(wf, st, f, false, Later(wf, f, |DependentsOf(wf, f)|)) == Some(st)
    ensures Inv(wf, st, quit, {})
  {
    assert Edges(f, Later(wf, f, |DependentsOf(wf, f)|)) == {};
    hide Inv;
  }

  lemma {:induction false} ReleaseQuits(wf: Workflow, st: State, quit: set<nat>, f: nat, heard: set<nat>, k: nat)
    returns (quit': set<nat>)
    requires NoDuplicates(wf) && k <= |DependentsOf(wf, f)| && Telling(wf, st, quit, f, heard, k)
    ensures |st.waiting| == |wf| && Release(wf, st, f, false, Later(wf, f, k)).Some?
    ensures var next := Release(wf, st, f, false, Later(wf, f, k)).value;
            Inv(wf, next, quit', {}) && next.results == st.results && next.resumed == st.resumed
    ensures quit' == quit + (GaveUp(wf, heard, f, |DependentsOf(wf, f)|) - GaveUp(wf, heard, f, k))
    decreases |DependentsOf(wf, f)| - k
  {
    hide Inv, Hear, GaveUp, GivesUp, Telling, NoDuplicates, Later, DependentsOf;
    var n := |DependentsOf(wf, f)|;
    if k == n {
      TellNone(wf, st, quit, f, heard);
      quit' := quit;
    } else {
      GaveUpGrows(wf, heard, f, k + 1, n);
      GaveUpGrows(wf, heard, f, k, k + 1);
      LaterParts(wf, f, k);
      var quit1 := TellOne(wf, st, quit, f, heard, k);
      var next := Hear(wf, st, f, false, DependentsOf(wf, f)[k]).value;
      quit' := ReleaseQuits(wf, next, quit1, f, heard, k + 1);
      InTwo(quit, GaveUp(wf, heard, f, k), GaveUp(wf, heard, f, k + 1), GaveUp(wf, heard, f, n));
    }
  }

  /** Those of the first `k` dependents of `f` that give up. */
  function GaveUp(wf: Workflow, heard: set<nat>, f: nat, k: nat): set<nat>
    requires k <= |DependentsOf(wf, f)|
  {
    set i | 0 <= i < k && GivesUp(wf, heard, f, DependentsOf(wf, f)[i]) :: DependentsOf(wf, f)[i]
  }

  lemma {:induction false} GaveUpBefore(wf: Workflow, heard: set<nat>, f: nat, k: nat, w: nat)
    requires k < |DependentsOf(wf, f)|
    ensures w in GaveUp(wf, heard, f, k) <==> w < DependentsOf(wf, f)[k] && GivesUp(wf, heard, f, w)
  {
    var all := DependentsOf(wf, f);
    DependentsAscend(wf, f, |wf|);
    if w < all[k] && GivesUp(wf, heard, f, w) {
      assert w in all;
      var i :| 0 <= i < |all| && all[i] == w;
      assert i < k;
    }
  }

  lemma {:induction false} GaveUpNext(wf: Workflow, heard: set<nat>, f: nat, k: nat)
    requires k < |DependentsOf(wf, f)|
    ensures var x := DependentsOf(wf, f)[k];
            && x !in GaveUp(wf, heard, f, k)
            && GaveUp(wf, heard, f, k + 1) == GaveUp(wf, heard, f, k) + if GivesUp(wf, heard, f, x) then {x} else {}
  {
    var x := DependentsOf(wf, f)[k];
    GaveUpBefore(wf, heard, f, k, x);
  }

  lemma {:induction false} GaveUpGrows(wf: Workflow, heard: set<nat>, f: nat, k: nat, n: nat)
    requires k <= n <= |DependentsOf(wf, f)|
    ensures GaveUp(wf, heard, f, k) <= GaveUp(wf, heard, f, n)
  {}

  lemma {:induction false} NextGivesUp(wf: Workflow, st: State, quit: set<nat>, f: nat, heard: set<nat>, k: nat)
    requires NoDuplicates(wf) && k < |DependentsOf(wf, f)|
    requires Inv(wf, st, quit, Edges(f, Later(wf, f, k + 1)) + {(f, DependentsOf(wf, f)[k])})
    requires Sources(st, quit) == heard + {f} + GaveUp(wf, heard, f, k)
    ensures st.waiting[DependentsOf(wf, f)[k]] == 1 <==> GivesUp(wf, heard, f, DependentsOf(wf, f)[k])
  {
    var all := DependentsOf(wf, f);
    var x := all[k];
    assert x in all;
    hide Placed;
    OneLeft(wf, st.waiting, Sources(st, quit), f, Later(wf, f, k + 1), x);
    forall w | w in Deps(wf, x) ensures w in GaveUp(wf, heard, f, k) <==> w < x && GivesUp(wf, heard, f, w) {
      GaveUpBefore(wf, heard, f, k, w);
    }
  }

  /** Everyone who gives up, in the end. */
  lemma {:induction false} GaveUpAll(wf: Workflow, heard: set<nat>, f: nat)
    ensures GaveUp(wf, heard, f, |DependentsOf(wf, f)|) == GivingUp(wf, heard, f)
  {
    var all := DependentsOf(wf, f);
    forall x | x in GivingUp(wf, heard, f) ensures x in GaveUp(wf, heard, f, |all|) {
      assert x in all;
      var i :| 0 <= i < |all| && all[i] == x;
    }
    forall i | 0 <= i < |all| ensures all[i] in Below(|wf|) {}
  }

  /** A failure makes exactly these give up and pass it on. */
  lemma {:induction false} FailedFinish(wf: Workflow, st: State, quit: set<nat>, e: Event) returns (quit': set<nat>)
    requires NoDuplicates(wf) && Steady(wf, st, quit) && Closed(wf, Elems(st.resumed))
    requires e.step in st.running && !e.result.success
    ensures Advance(wf, st, e).Some? && Steady(wf, Advance(wf, st, e).value, quit')
    ensures quit' == quit + GivingUp(wf, Sources(st, quit), e.step)
    ensures Advance(wf, st, e).value.results == st.results[e.step := e.result]
    ensures Advance(wf, st, e).value.resumed == st.resumed
  {
    var f, heard := e.step, Sources(st, quit);
    var now := Landed(st, f, e.result);
    FailureLands(wf, st, quit, e);
    assert Later(wf, f, 0) == DependentsOf(wf, f);
    hide Inv, Telling, Placed;
    quit' := ReleaseQuits(wf, now, quit, f, heard, 0);
    GaveUpAll(wf, heard, f);
    var mid := Complete(wf, st, f, e.result).value;
    LaunchKeeps(wf, mid, quit');
    AdvanceRecords(wf, st, e);
  }

  lemma {:induction false} FailureLands(wf: Workflow, st: State, quit: set<nat>, e: Event)
    requires Steady(wf, st, quit) && Closed(wf, Elems(st.resumed)) && e.step in st.running && !e.result.success
    ensures GaveUp(wf, Sources(st, quit), e.step, 0) == {}
    ensures Telling(wf, Landed(st, e.step, e.result), quit, e.step, Sources(st, quit), 0)
  {
    var f, heard := e.step, Sources(st, quit);
    var now := Landed(st, f, e.result);
    assert f in Active(st);
    NotResumed(wf, st, quit, f);
    ClosedSpares(wf, st, f);
    assert f !in heard;
    assert Sources(now, quit) == heard + {f};
    NewSource(wf, st.waiting, heard, {}, f);
    assert {} + Edges(f, DependentsOf(wf, f)) == Edges(f, DependentsOf(wf, f));
    LandedPlaced(wf, st, quit, f, e.result);
    assert Later(wf, f, 0) == DependentsOf(wf, f);
    assert Inv(wf, now, quit, Edges(f, DependentsOf(wf, f)));
    hide Inv;
  }

  // ---- In terms of the workflow alone ----

  /** When `f` is the last to come back of everything not downstream of it, and fails, `x`
      gives up on hearing from it and passes it on. */
  ghost predicate Passes(wf: Workflow, f: nat, x: nat)
    decreases x
  {
    && x < |wf| && f in Deps(wf, x)
    && (forall w | w in Deps(wf, x) && w != f :: !Ancestor(wf, f, w) || (w < x && Passes(wf, f, w)))
  }

  /** And `z` gives up too, on hearing from one of those, but passes nothing on. */
  ghost predicate Hushed(wf: Workflow, f: nat, z: nat) {
    && z < |wf| && Ancestor(wf, f, z) && !Passes(wf, f, z)
    && (forall w | w in Deps(wf, z) :: w == f || !Ancestor(wf, f, w) || Passes(wf, f, w))
  }

  /** Somebody waits for a step that would be hushed. */
  ghost predicate SomeoneWaits(wf: Workflow) {
    exists f: nat, z: nat, y: nat | f < |wf| && y < |wf| && z in Deps(wf, y) :: Hushed(wf, f, z)
  }

  lemma {:induction false} PassesDown(wf: Workflow, f: nat, x: nat)
    requires Passes(wf, f, x) && f < |wf|
    ensures Ancestor(wf, f, x)
  {
    DepIsAncestor(wf, f, x);
  }

  /** A hushed step has a dependency that depends on the step that failed. */
  lemma {:induction false} HushedHeard(wf: Workflow, f: nat, z: nat) returns (w: nat)
    requires Hushed(wf, f, z) && f < |wf|
    ensures w in Deps(wf, z) && w < |wf| && f in Deps(wf, w)
  {
    w := LastEdge(wf, f, z);
    if w == f {
      w :| w in Deps(wf, z) && w != f && Ancestor(wf, f, w) && !(w < z && Passes(wf, f, w));
    }
    assert Passes(wf, f, w);
  }

  /** Everything counted before a step comes back lies outside what is downstream of it. */
  lemma {:induction false} HeardOutside(wf: Workflow, order: seq<nat>, st: State, quit: set<nat>, f: nat, w: nat)
    requires Topological(wf, order) && Steady(wf, st, quit) && Closed(wf, Elems(st.resumed)) && f in st.running
    requires w in Sources(st, quit)
    ensures w != f && !Ancestor(wf, f, w)
  {
    NotYetSource(wf, st, quit, f);
    if Ancestor(wf, f, w) { SourcesUpstream(wf, order, st, quit, w, f); }
  }

  lemma {:induction false} GivesUpPasses(wf: Workflow, order: seq<nat>, st: State, quit: set<nat>, f: nat, x: nat)
    requires Topological(wf, order) && Steady(wf, st, quit) && Closed(wf, Elems(st.resumed)) && f in st.running
    requires GivesUp(wf, Sources(st, quit), f, x)
    ensures Passes(wf, f, x)
    decreases x
  {
    hide Inv;
    forall w | w in Deps(wf, x) && w != f ensures !Ancestor(wf, f, w) || (w < x && Passes(wf, f, w)) {
      if w in Sources(st, quit) {
        HeardOutside(wf, order, st, quit, f, w);
      } else {
        GivesUpPasses(wf, order, st, quit, f, w);
      }
    }
  }

  /** Listed by this failure, and not among those that pass it on: hushed. */
  lemma {:induction false} NewlyHushed(wf: Workflow, order: seq<nat>, st: State, quit: set<nat>, f: nat, z: nat)
    requires Topological(wf, order) && Steady(wf, st, quit) && Closed(wf, Elems(st.resumed)) && f in st.running && f < |wf|
    requires z < |wf| && !GivesUp(wf, Sources(st, quit), f, z) && !(Deps(wf, z) <= Sources(st, quit))
    requires Deps(wf, z) <= Sources(st, quit) + {f} + GivingUp(wf, Sources(st, quit), f)
    ensures Hushed(wf, f, z)
  {
    hide Inv, Steady;
    var heard := Sources(st, quit);
    forall w | w in Deps(wf, z) ensures w == f || !Ancestor(wf, f, w) || Passes(wf, f, w) {
      if w in heard { HeardOutside(wf, order, st, quit, f, w); }
      else if w != f { GivesUpPasses(wf, order, st, quit, f, w); }
    }
    var d :| d in Deps(wf, z) && d !in heard;
    if d != f {
      GivesUpPasses(wf, order, st, quit, f, d);
      PassesDown(wf, f, d);
      DepIsAncestor(wf, d, z);
      AncestorTransitive(wf, f, d, z);
    } else {
      DepIsAncestor(wf, f, z);
    }
    if f in Deps(wf, z) {
      var w :| w in Deps(wf, z) && w != f && w !in heard && !(w < z && GivesUp(wf, heard, f, w));
      GivesUpPasses(wf, order, st, quit, f, w);
      PassesDown(wf, f, w);
    }
  }

  // ---- Whole runs ----

  ghost predicate FailedDep(wf: Workflow, st: State, x: nat) {
    x < |wf| && exists f | f in Deps(wf, x) :: Failed(st, f)
  }

  ghost predicate HushedBy(wf: Workflow, st: State, z: nat) {
    exists f | f in Below(|wf|) :: Failed(st, f) && Hushed(wf, f, z)
  }

  /** Who is listed, and why: a failed dependency, or hushed by a failure. */
  ghost predicate Explained(wf: Workflow, st: State, quit: set<nat>) {
    && (forall x | x in quit :: FailedDep(wf, st, x))
    && (forall z | z in Elems(st.abandoned) - quit :: HushedBy(wf, st, z))
  }

  /** Results are for good. */
  predicate Extends(st: State, next: State) {
    forall x | x in st.results :: x in next.results && next.results[x] == st.results[x]
  }

  lemma {:induction false} StillFailed(wf: Workflow, st: State, next: State, x: nat)
    requires Extends(st, next)
    ensures FailedDep(wf, st, x) ==> FailedDep(wf, next, x)
    ensures HushedBy(wf, st, x) ==> HushedBy(wf, next, x)
  {
    hide Hushed;
    assert forall f | Failed(st, f) :: Failed(next, f);
  }

  lemma {:induction false} StillExplained(wf: Workflow, st: State, next: State, quit: set<nat>)
    requires Explained(wf, st, quit) && next.abandoned == st.abandoned && Extends(st, next)
    ensures Explained(wf, next, quit)
  {
    hide FailedDep, HushedBy, Extends;
    forall x ensures (FailedDep(wf, st, x) ==> FailedDep(wf, next, x)) && (HushedBy(wf, st, x) ==> HushedBy(wf, next, x)) {
      StillFailed(wf, st, next, x);
    }
  }

  /** The failure of `f` leads from `st` to `next`. */
  ghost predicate FailsTo(wf: Workflow, st: State, quit: set<nat>, f: nat, next: State, quit': set<nat>) {
    && Steady(wf, st, quit) && Steady(wf, next, quit') && st.resumed == next.resumed && Closed(wf, Elems(st.resumed))
    && f in st.running && next.results.Keys == st.results.Keys + {f} && Extends(st, next) && Failed(next, f)
    && (forall y | y in st.running && y != f :: y in next.running)
    && quit' == quit + GivingUp(wf, Sources(st, quit), f)
  }

  lemma {:induction false} ListedExplained(wf: Workflow, order: seq<nat>, st: State, quit: set<nat>, f: nat,
                                           next: State, quit': set<nat>, z: nat)
    requires NoDuplicates(wf) && Topological(wf, order) && FailsTo(wf, st, quit, f, next, quit')
    requires Explained(wf, st, quit)
    requires z in Elems(next.abandoned) - quit'
    ensures HushedBy(wf, next, z)
  {
    hide HushedBy, FailedDep, NoDuplicates, Topological, Steady, GivingUp, Extends, Failed;
    if z in Elems(st.abandoned) {
      StillFailed(wf, st, next, z);
    } else {
      ListedNow(wf, st, quit, f, next, quit', z);
      NewlyHushed(wf, order, st, quit, f, z);
      HushedNow(wf, next, f, z);
    }
  }

  /** A failure lists only what it explains. */
  lemma {:induction false} FailureExplained(wf: Workflow, order: seq<nat>, st: State, quit: set<nat>, f: nat,
                                            next: State, quit': set<nat>)
    requires NoDuplicates(wf) && Topological(wf, order) && FailsTo(wf, st, quit, f, next, quit')
    requires Explained(wf, st, quit)
    ensures Explained(wf, next, quit')
  {
    hide HushedBy, FailedDep, NoDuplicates, Topological, Steady, GivingUp, Extends, Failed;
    forall x | x in quit' ensures FailedDep(wf, next, x) {
      if x in quit { StillFailed(wf, st, next, x); } else { FailedNow(wf, Sources(st, quit), next, f, x); }
    }
    forall z | z in Elems(next.abandoned) - quit' ensures HushedBy(wf, next, z) {
      ListedExplained(wf, order, st, quit, f, next, quit', z);
    }
  }

  lemma {:induction false} ResultsNow(st: State, next: State, e: Event)
    requires next.results == st.results[e.step := e.result] && e.step !in st.results && !e.result.success
    ensures next.results.Keys == st.results.Keys + {e.step} && Extends(st, next) && Failed(next, e.step)
  {}

  lemma {:induction false} FailureLeads(wf: Workflow, st: State, quit: set<nat>, e: Event) returns (quit': set<nat>)
    requires NoDuplicates(wf) && Steady(wf, st, quit) && Closed(wf, Elems(st.resumed))
    requires e.step in st.running && !e.result.success
    ensures Advance(wf, st, e).Some? && FailsTo(wf, st, quit, e.step, Advance(wf, st, e).value, quit')
  {
    hide Inv, NoDuplicates, GivingUp, Advance, Extends, Failed, Sources;
    hide Closed, Elems;
    Apart(wf, st, quit);
    quit' := FailedFinish(wf, st, quit, e);
    var next := Advance(wf, st, e).value;
    ResultsNow(st, next, e);
    forall y | y in st.running && y != e.step ensures y in next.running { RunningStays(wf, st, e, y); }
  }

  lemma {:induction false} FailedNow(wf: Workflow, heard: set<nat>, next: State, f: nat, x: nat)
    requires x in GivingUp(wf, heard, f) && Failed(next, f)
    ensures FailedDep(wf, next, x)
  {}

  lemma {:induction false} HushedNow(wf: Workflow, next: State, f: nat, z: nat)
    requires f < |wf| && Hushed(wf, f, z) && Failed(next, f)
    ensures HushedBy(wf, next, z)
  {
    assert f in Below(|wf|);
  }

  /** A step listed only now was waiting for something, and has heard from everything. */
  lemma {:induction false} ListedNow(wf: Workflow, st: State, quit: set<nat>, f: nat, next: State, quit': set<nat>,
                                     z: nat)
    requires NoDuplicates(wf) && Steady(wf, st, quit) && Steady(wf, next, quit') && st.resumed == next.resumed
    requires Closed(wf, Elems(st.resumed)) && f in st.running && next.results.Keys == st.results.Keys + {f}
    requires forall y | y in st.running && y != f :: y in next.running
    requires quit' == quit + GivingUp(wf, Sources(st, quit), f)
    requires z in Elems(next.abandoned) - quit' && z !in Elems(st.abandoned)
    ensures f < |wf| && z < |wf| && !GivesUp(wf, Sources(st, quit), f, z) && !(Deps(wf, z) <= Sources(st, quit))
    ensures Deps(wf, z) <= Sources(st, quit) + {f} + GivingUp(wf, Sources(st, quit), f)
  {
    var heard := Sources(st, quit);
    var more := GivingUp(wf, heard, f);
    Apart(wf, next, quit');
    ActiveStep(wf, st, quit, f);
    assert z in Below(|wf|) && (z in more <==> GivesUp(wf, heard, f, z));
    hide Inv, GivingUp, GivesUp, NoDuplicates;
    NotOutBefore(st, next, f, z);
    SourcesNow(st, quit, next, quit', f, more);
    NotResumed(wf, next, quit', z);
    assert z !in Elems(st.resumed);
    hide Sources, Active;
    ActiveHeard(wf, st, quit, z);
    ActiveHeard(wf, next, quit', z);
  }

  lemma {:induction false} NotOutBefore(st: State, next: State, f: nat, z: nat)
    requires f in st.running && next.results.Keys == st.results.Keys + {f} && st.ready == []
    requires forall y | y in st.running && y != f :: y in next.running
    requires next.running.Keys !! next.results.Keys !! Elems(next.abandoned)
    requires z in Elems(next.abandoned) && z !in Elems(st.abandoned)
    ensures z !in Active(st) && z in Active(next)
  {}

  lemma {:induction false} SourcesNow(st: State, quit: set<nat>, next: State, quit': set<nat>, f: nat, more: set<nat>)
    requires st.resumed == next.resumed && next.results.Keys == st.results.Keys + {f} && quit' == quit + more
    ensures Sources(next, quit') == Sources(st, quit) + {f} + more
  {}

  lemma {:induction false} AdvanceExplained(wf: Workflow, order: seq<nat>, st: State, quit: set<nat>,
                                            e: Event) returns (quit': set<nat>)
    requires NoDuplicates(wf) && Topological(wf, order) && Steady(wf, st, quit) && Closed(wf, Elems(st.resumed))
    requires e.step in st.running && Explained(wf, st, quit)
    ensures Advance(wf, st, e).Some? && Advance(wf, st, e).value.resumed == st.resumed
    ensures Steady(wf, Advance(wf, st, e).value, quit') && Explained(wf, Advance(wf, st, e).value, quit')
  {
    hide Inv, Advance, Explained, GivingUp, NoDuplicates, Topological, Closed;
    if e.result.success {
      quit' := Finish(wf, st, quit, e);
      StillExplained(wf, st, Advance(wf, st, e).value, quit);
    } else {
      quit' := FailureLeads(wf, st, quit, e);
      FailureExplained(wf, order, st, quit, e.step, Advance(wf, st, e).value, quit');
    }
  }

  lemma {:induction false} RunExplained(wf: Workflow, out: Task -> Option<DataId>, order: seq<nat>, st: State, quit: set<nat>,
                                        events: seq<Event>, after: State)
    returns (quit': set<nat>)
    requires NoDuplicates(wf) && Topological(wf, order) && Steady(wf, st, quit) && Closed(wf, Elems(st.resumed))
    requires Runs(wf, out, st, events, after) && Explained(wf, st, quit)
    ensures Steady(wf, after, quit') && after.resumed == st.resumed && Explained(wf, after, quit')
    decreases |events|
  {
    hide Inv, Advance, Explained, NoDuplicates, Topological, Steady, Possible, Closed;
    if events == [] { return quit; }
    quit' := AdvanceExplained(wf, order, st, quit, events[0]);
    quit' := RunExplained(wf, out, order, Advance(wf, st, events[0]).value, quit', events[1..], after);
  }

  /** A run from the start or from a closed set, and the steps of it that gave up and passed
      it on. */
  lemma {:induction false} Explanation(wf: Workflow, out: Task -> Option<DataId>, order: seq<nat>, usable: Outputs,
                                       events: seq<Event>, after: State)
    returns (quit: set<nat>)
    requires NoDuplicates(wf) && RunOf(wf, out, order, usable, events, after) && Closed(wf, Done(order, usable))
    ensures Steady(wf, after, quit) && Explained(wf, after, quit)
    ensures Elems(after.resumed) == Done(order, usable)
  {
    hide Inv, Runs, Start, Launch, Steady, Closed, Topological, NoDuplicates;
    Launched(wf, order, usable);
    var st := Launch(wf, Start(wf, order, usable).value);
    assert Elems(st.abandoned) == {};
    quit := RunExplained(wf, out, order, st, {}, events, after);
  }

  /** A step is listed as skipped only when a step failed one or two edges upstream of it. */
  lemma {:induction false} SkippedNearFailure(wf: Workflow, out: Task -> Option<DataId>, order: seq<nat>,
                                              usable: Outputs, events: seq<Event>, after: State, x: nat)
    requires NoDuplicates(wf) && RunOf(wf, out, order, usable, events, after) && Closed(wf, Done(order, usable))
    requires x in after.abandoned
    ensures x < |wf|
    ensures (exists f | f in Deps(wf, x) :: Failed(after, f))
         || (exists w, f | w in Deps(wf, x) && w < |wf| && f in Deps(wf, w) :: Failed(after, f))
  {
    var quit := Explanation(wf, out, order, usable, events, after);
    hide RunOf, Inv, Hushed, Closed, Done;
    assert x in Elems(after.abandoned);
    Apart(wf, after, quit);
    assert x in Below(|wf|);
    if x in quit {
      assert FailedDep(wf, after, x);
    } else {
      assert HushedBy(wf, after, x);
      var f :| f in Below(|wf|) && Failed(after, f) && Hushed(wf, f, x);
      var w := HushedHeard(wf, f, x);
    }
  }

  lemma {:induction false} QuitListed(wf: Workflow, st: State, quit: set<nat>)
    requires Steady(wf, st, quit)
    ensures quit <= Elems(st.abandoned)
  {}

  /** Run, listed as skipped, or done by an earlier run. */
  function Accounted(st: State): set<nat> {
    st.results.Keys + Elems(st.abandoned) + Elems(st.resumed)
  }

  /** Who is not accounted for, once nothing is out. */
  lemma {:induction false} LeftOut(wf: Workflow, st: State, quit: set<nat>, x: nat)
    requires NoDuplicates(wf) && Steady(wf, st, quit) && Closed(wf, Elems(st.resumed)) && Finished(st) && x < |wf|
    ensures x !in Accounted(st) <==> exists d | d in Deps(wf, x) :: d !in Sources(st, quit)
  {
    assert Active(st) == st.results.Keys + Elems(st.abandoned);
    ActiveUnresumed(wf, st, quit, x);
    hide Inv;
    if x in Elems(st.resumed) {
      assert Deps(wf, x) <= Sources(st, quit);
    }
  }

  /** Once nothing is out, a step is not accounted for exactly when something it depends on
      neither came back, nor was resumed, nor passed the news of a failure on. */
  lemma {:induction false} UnlistedExactly(wf: Workflow, out: Task -> Option<DataId>, order: seq<nat>,
                                           usable: Outputs, events: seq<Event>, after: State)
    returns (quit: set<nat>)
    requires NoDuplicates(wf) && RunOf(wf, out, order, usable, events, after) && Closed(wf, Done(order, usable))
    requires Finished(after)
    ensures quit <= Elems(after.abandoned) && Explained(wf, after, quit)
    ensures forall x: nat | x < |wf| ::
              x !in Accounted(after) <==> exists d | d in Deps(wf, x) :: d !in Sources(after, quit)
  {
    hide RunOf, Explained, NoDuplicates, Closed, Inv, Done, Accounted, Sources;
    quit := Explanation(wf, out, order, usable, events, after);
    QuitListed(wf, after, quit);
    forall x: nat | x < |wf|
      ensures x !in Accounted(after) <==> exists d | d in Deps(wf, x) :: d !in Sources(after, quit)
    {
      LeftOut(wf, after, quit, x);
    }
  }

  // ---- When every step is accounted for ----

  /** Every run that ends, from the start or from a closed set, accounts for every step. */
  ghost predicate AllAccounted(wf: Workflow, out: Task -> Option<DataId>) {
    forall order, usable, events, after ::
      RunOf(wf, out, order, usable, events, after) && Closed(wf, Done(order, usable)) && Finished(after)
      ==> Accounted(after) == Below(|wf|)
  }

  /** The first step of the plan that is not accounted for waits for a hushed one. */
  lemma {:induction false} UnlistedWaits(wf: Workflow, order: seq<nat>, after: State, quit: set<nat>, i: nat)
    requires Topological(wf, order) && i < |order| && Explained(wf, after, quit)
    requires order[i] !in Accounted(after)
    requires forall x: nat | x < |wf| ::
               x !in Accounted(after) <==> exists d | d in Deps(wf, x) :: d !in Sources(after, quit)
    ensures SomeoneWaits(wf)
  {
    var y := order[i];
    var d :| d in Deps(wf, y) && d !in Sources(after, quit);
    var j := DepBefore(wf, order, i, d);
    hide Hushed, FailedDep;
    if d in Elems(after.abandoned) {
      assert HushedBy(wf, after, d);
      var f :| f in Below(|wf|) && Failed(after, f) && Hushed(wf, f, d);
    } else {
      UnlistedWaits(wf, order, after, quit, j);
    }
  }

  /** Everything neither `f` nor downstream of it. */
  ghost function Aside(wf: Workflow, f: nat): set<nat> {
    set y | y in Below(|wf|) && y != f && !Ancestor(wf, f, y)
  }

  lemma {:induction false} AsideClosed(wf: Workflow, order: seq<nat>, f: nat)
    requires Topological(wf, order)
    ensures Closed(wf, Aside(wf, f))
  {
    forall y, d | y in Aside(wf, f) && d in Deps(wf, y) ensures d in Aside(wf, f) {
      var i := PlaceOf(wf, order, y);
      var j := DepBefore(wf, order, i, d);
      DepIsAncestor(wf, d, y);
      if Ancestor(wf, f, d) { AncestorTransitive(wf, f, d, y); }
    }
  }

  /** With all of that done, `f` alone is out. */
  lemma {:induction false} OnlyThatOut(wf: Workflow, order: seq<nat>, st: State, f: nat, x: nat)
    requires NoDuplicates(wf) && Topological(wf, order) && f < |wf| && Steady(wf, st, {})
    requires st.resumed == [] && st.abandoned == [] && st.results.Keys == Aside(wf, f)
    ensures x in st.running <==> x == f
  {
    assert Elems(st.resumed) == {};
    assert Sources(st, {}) == Aside(wf, f);
    hide Inv;
    if x == f {
      forall d | d in Deps(wf, f) ensures d in Aside(wf, f) {
        var i := PlaceOf(wf, order, f);
        var j := DepBefore(wf, order, i, d);
        DepIsAncestor(wf, d, f);
        NotOwnAncestor(wf, order, f);
        if Ancestor(wf, f, d) { AncestorTransitive(wf, f, d, f); }
      }
      ActiveHeard(wf, st, {}, f);
    } else if x in st.running {
      ActiveStep(wf, st, {}, x);
      Apart(wf, st, {});
      if Ancestor(wf, f, x) { var d := LastEdge(wf, f, x); }
    }
  }

  lemma {:induction false} JustThatOut(wf: Workflow, order: seq<nat>, st: State, f: nat)
    requires NoDuplicates(wf) && Topological(wf, order) && f < |wf| && Steady(wf, st, {})
    requires st.resumed == [] && st.abandoned == [] && st.results.Keys == Aside(wf, f)
    ensures st.running.Keys == {f}
  {
    hide NoDuplicates, Topological, Steady, Aside;
    forall x ensures x in st.running <==> x == f { OnlyThatOut(wf, order, st, f, x); }
  }

  lemma {:induction false} AsideAll(wf: Workflow, order: seq<nat>, f: nat)
    requires Topological(wf, order)
    ensures Aside(wf, f) * Elems(order[..|order|]) == Aside(wf, f)
  {
    CoversAll(|wf|, order);
    assert order[..|order|] == order;
    assert Aside(wf, f) <= Below(|wf|);
    hide Aside;
  }

  lemma {:induction false} AllElseDone(wf: Workflow, out: Task -> Option<DataId>, order: seq<nat>,
                                       f: nat) returns (st: State)
    requires NoDuplicates(wf) && Topological(wf, order) && f < |wf|
    ensures Reached(wf, out, order, st, {}) && st.results.Keys == Aside(wf, f) && st.running.Keys == {f}
  {
    AsideClosed(wf, order, f);
    AsideAll(wf, order, f);
    hide Inv, Reachable, NoDuplicates, Topological, Closed, Aside, Steady;
    st := Drain(wf, out, order, Aside(wf, f), |order|);
    JustThatOut(wf, order, st, f);
  }

  /** Then `f` fails, and that is the end of the run. */
  lemma {:induction false} LastFailure(wf: Workflow, out: Task -> Option<DataId>, order: seq<nat>, st: State, f: nat)
    returns (after: State, quit: set<nat>)
    requires NoDuplicates(wf) && Reached(wf, out, order, st, {}) && st.running.Keys == {f}
    ensures Reachable(wf, out, order, after) && Steady(wf, after, quit) && Finished(after) && after.resumed == []
    ensures after.results.Keys == st.results.Keys + {f} && quit == {} + GivingUp(wf, Sources(st, {}), f)
  {
    hide Inv, Reachable, NoDuplicates, Advance, GivingUp;
    var e := Event(f, TaskResult(false, None));
    assert Elems(st.resumed) == {} && f in st.running;
    quit := FailedFinish(wf, st, {}, e);
    after := Advance(wf, st, e).value;
    ReachNext(wf, out, order, st, e);
    NothingOut(wf, st, e, quit);
  }

  lemma {:induction false} NothingOut(wf: Workflow, st: State, e: Event, quit: set<nat>)
    requires WellSized(wf, st) && st.ready == [] && st.running.Keys == {e.step} && !e.result.success
    requires Advance(wf, st, e).Some? && Steady(wf, Advance(wf, st, e).value, quit)
    requires e.step in Advance(wf, st, e).value.results
    ensures Finished(Advance(wf, st, e).value)
  {
    hide Advance, Inv;
    var after := Advance(wf, st, e).value;
    Apart(wf, after, quit);
    forall x ensures x !in after.running { RunningStays(wf, st, e, x); }
  }

  /** Whoever waits for a hushed step is neither run nor listed in the run in which that
      failure is the last thing to happen. */
  lemma {:induction false} HushedStarves(wf: Workflow, out: Task -> Option<DataId>, order: seq<nat>, f: nat,
                                         z: nat, y: nat)
    returns (events: seq<Event>, after: State)
    requires NoDuplicates(wf) && Topological(wf, order) && f < |wf| && y < |wf| && z in Deps(wf, y) && Hushed(wf, f, z)
    ensures RunOf(wf, out, order, map[], events, after) && Finished(after) && y !in Accounted(after)
  {
    hide RunOf, Hushed, NoDuplicates, Topological, Aside, Steady, GivingUp;
    var st := AllElseDone(wf, out, order, f);
    var quit;
    after, quit := LastFailure(wf, out, order, st, f);
    events :| RunOf(wf, out, order, map[], events, after);
    assert f in st.running;
    Silenced(wf, order, st, f, after, quit, z, y);
  }

  lemma {:induction false} Silenced(wf: Workflow, order: seq<nat>, st: State, f: nat, after: State, quit: set<nat>,
                                    z: nat, y: nat)
    requires NoDuplicates(wf) && Topological(wf, order) && f < |wf| && y < |wf| && z in Deps(wf, y) && Hushed(wf, f, z)
    requires Steady(wf, st, {}) && st.resumed == after.resumed == [] && f in st.running
    requires st.results.Keys == Aside(wf, f)
    requires Steady(wf, after, quit) && after.results.Keys == st.results.Keys + {f}
    requires quit == {} + GivingUp(wf, Sources(st, {}), f)
    ensures y !in Accounted(after)
  {
    hide Inv, NoDuplicates;
    assert Elems(st.resumed) == {};
    NotOwnAncestor(wf, order, f);
    if GivesUp(wf, Sources(st, {}), f, z) { GivesUpPasses(wf, order, st, {}, f, z); }
    assert z !in quit && z !in Aside(wf, f) && z != f;
    assert Elems(after.resumed) == {};
    assert z !in Sources(after, quit);
    ActiveHeard(wf, after, quit, y);
  }

  /** Every run, from the start or from a closed set, accounts for every step, run, listed as
      skipped or resumed, exactly when nobody in the workflow waits for a step that a failure
      would hush. */
  lemma {:induction false} SkipsExactly(wf: Workflow, out: Task -> Option<DataId>)
    requires NoDuplicates(wf) && Acyclic(wf)
    ensures AllAccounted(wf, out) <==> !SomeoneWaits(wf)
  {
    hide RunOf, Hushed, NoDuplicates, Explained;
    if SomeoneWaits(wf) {
      var f: nat, z: nat, y: nat :| f < |wf| && y < |wf| && z in Deps(wf, y) && Hushed(wf, f, z);
      var order :| Topological(wf, order);
      var events, after := HushedStarves(wf, out, order, f, z, y);
      assert Done(order, map[]) == {} && y in Below(|wf|);
    } else {
      forall order, usable, events, after |
        RunOf(wf, out, order, usable, events, after) && Closed(wf, Done(order, usable)) && Finished(after)
        ensures Accounted(after) == Below(|wf|)
      {
        EveryoneListed(wf, out, order, usable, events, after);
      }
    }
  }

  lemma {:induction false} EveryoneListed(wf: Workflow, out: Task -> Option<DataId>, order: seq<nat>,
                                          usable: Outputs, events: seq<Event>, after: State)
    requires NoDuplicates(wf) && !SomeoneWaits(wf) && RunOf(wf, out, order, usable, events, after)
    requires Closed(wf, Done(order, usable)) && Finished(after)
    ensures Accounted(after) == Below(|wf|)
  {
    assert Topological(wf, order);
    hide RunOf, SomeoneWaits, Explained, NoDuplicates;
    var quit := UnlistedExactly(wf, out, order, usable, events, after);
    var quit1 := Explanation(wf, out, order, usable, events, after);
    Apart(wf, after, quit1);
    forall x | x in Accounted(after) ensures x in Below(|wf|) {}
    hide Accounted, Sources, Closed, Done;
    forall x | x in Below(|wf|) ensures x in Accounted(after) {
      var i := PlaceOf(wf, order, x);
      if x !in Accounted(after) { UnlistedWaits(wf, order, after, quit, i); }
    }
  }

  // ---- One dependency each ----

  /** Four steps, each reading the one before. */
  ghost predicate FourInARow(wf: Workflow) {
    exists p :: |p| == 4 && IsPath(wf, p)
  }

  lemma {:induction false} OnlyDep(wf: Workflow, x: nat, d: nat, e: nat)
    requires x < |wf| && |wf[x].dependsOn| <= 1 && d in Deps(wf, x) && e in Deps(wf, x)
    ensures d == e
  {}

  lemma {:induction false} FourHush(wf: Workflow, p: seq<nat>, order: seq<nat>)
    requires Topological(wf, order) && |p| == 4 && IsPath(wf, p)
    requires forall x: nat | x < |wf| :: |wf[x].dependsOn| <= 1
    ensures Hushed(wf, p[0], p[2])
  {
    var f, x, z := p[0], p[1], p[2];
    forall w | w in Deps(wf, x) ensures w == f { OnlyDep(wf, x, w, f); }
    forall w | w in Deps(wf, z) ensures w == x { OnlyDep(wf, z, w, x); }
    assert Passes(wf, f, x);
    DepIsAncestor(wf, f, x);
    DepIsAncestor(wf, x, z);
    AncestorTransitive(wf, f, x, z);
    NotOwnAncestor(wf, order, f);
  }

  lemma {:induction false} HushFour(wf: Workflow, f: nat, z: nat, y: nat)
    requires f < |wf| && y < |wf| && z in Deps(wf, y) && Hushed(wf, f, z)
    ensures FourInARow(wf)
  {
    var w := HushedHeard(wf, f, z);
    assert IsPath(wf, [f, w, z, y]);
  }

  /** With at most one dependency each, that is when no four steps lie in a row. */
  lemma {:induction false} ChainsOfFour(wf: Workflow, out: Task -> Option<DataId>)
    requires Acyclic(wf) && forall x: nat | x < |wf| :: |wf[x].dependsOn| <= 1
    ensures AllAccounted(wf, out) <==> !FourInARow(wf)
  {
    OneDependencyIsChained(wf);
    SkipsExactly(wf, out);
    var order :| Topological(wf, order);
    hide AllAccounted, Hushed;
    if FourInARow(wf) {
      var p :| |p| == 4 && IsPath(wf, p);
      FourHush(wf, p, order);
      assert p[2] in Deps(wf, p[3]);
    }
    if SomeoneWaits(wf) {
      var f: nat, z: nat, y: nat :| f < |wf| && y < |wf| && z in Deps(wf, y) && Hushed(wf, f, z);
      HushFour(wf, f, z, y);
    }
  }
}
