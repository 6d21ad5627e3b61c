/** What an attempt may record that resumed a set not closed under dependencies: a step can
    then go out beside one downstream of it, and a join carry on past either. */
module FlowUnclosed {
  import opened Core
  import opened Workflows
  import opened Ancestry
  import opened Flows
  import opened FlowInvariant
  import opened FlowRuns
  import opened FlowTheorems
  import opened FlowIsolation
  import opened FlowLaws
  import opened FlowResume
  import opened FlowRunner
  import opened FlowHistory
  import opened FlowPoison
  import opened FlowDirect
  import opened Journals
  import Caches

  // ---- Where it can happen ----

  /** A join of two steps neither of which depends directly on the other, and the second of
      which is upstream of nothing else the join reads. */
  ghost predicate Fork(wf: Workflow, a: nat, b: nat, j: nat) {
    && a < |wf| && b < |wf| && j < |wf| && a != b && a != j && b != j
    && a in Deps(wf, j) && b in Deps(wf, j) && !Direct(wf, a, b)
    && (forall c | c in Deps(wf, j) :: !Ancestor(wf, b, c))
  }

  lemma {:induction false} FirstIndirect(wf: Workflow, order: seq<nat>, n: nat) returns (i: nat)
    requires Topological(wf, order) && n <= |order|
    requires exists k | 0 <= k < n :: !DirectAt(wf, order[k])
    ensures i < n && !DirectAt(wf, order[i]) && forall k | 0 <= k < i :: DirectAt(wf, order[k])
  {
    if exists k | 0 <= k < n - 1 :: !DirectAt(wf, order[k]) {
      i := FirstIndirect(wf, order, n - 1);
    } else {
      i := n - 1;
    }
  }

  /** If every other dependency is one of the last, the last would be such a join already. */
  lemma {:induction false} NotAllDirect(wf: Workflow, order: seq<nat>, i: nat, ib: nat) returns (a: nat)
    requires Topological(wf, order) && ib < i < |order| && order[ib] in Deps(wf, order[i])
    requires !DirectAt(wf, order[i]) && DirectAt(wf, order[ib])
    ensures a in Deps(wf, order[i]) && a != order[ib] && a !in Deps(wf, order[ib])
  {
    var j, b := order[i], order[ib];
    var p, q :| p in Deps(wf, j) && q in Deps(wf, j) && p != q && !Direct(wf, p, q);
    if p == b || (q != b && q !in Deps(wf, b)) { a := q; } else { a := p; }
  }

  lemma {:induction false} ForkPlace(wf: Workflow, order: seq<nat>) returns (a: nat, b: nat, j: nat)
    requires Topological(wf, order) && !DirectlyChained(wf)
    ensures Fork(wf, a, b, j)
  {
    var bad: nat :| bad < |wf| && !DirectAt(wf, bad);
    var at := PlaceOf(wf, order, bad);
    var i := FirstIndirect(wf, order, |order|);
    j := order[i];
    var p :| p in Deps(wf, j);
    var ip := DepBefore(wf, order, i, p);
    var ib := LastIn(order, Deps(wf, j), i);
    b := order[ib];
    a := NotAllDirect(wf, order, i, ib);
    var ia := DepBefore(wf, order, i, a);
    if b in Deps(wf, a) { var k := DepBefore(wf, order, ia, b); }
    forall c | c in Deps(wf, j) ensures !Ancestor(wf, b, c) {
      var ic := DepBefore(wf, order, i, c);
      if Ancestor(wf, b, c) { var k := AncestorEarlier(wf, order, b, ic); }
    }
  }

  /** Everything but `a`, `b` and what is downstream of `b`. */
  ghost function Remains(wf: Workflow, a: nat, b: nat): set<nat> {
    set y | y in Below(|wf|) && y != a && y != b && !Ancestor(wf, b, y)
  }

  /** With that resumed both go out, and the join waits for the two of them. */
  lemma {:induction false} ForkReads(wf: Workflow, order: seq<nat>, a: nat, b: nat, j: nat)
    requires Topological(wf, order) && Fork(wf, a, b, j)
    ensures Deps(wf, a) <= Remains(wf, a, b) && Deps(wf, b) <= Remains(wf, a, b)
    ensures Deps(wf, j) <= Remains(wf, a, b) + {a, b} && j !in Remains(wf, a, b)
    ensures a !in Remains(wf, a, b) && b !in Remains(wf, a, b)
    ensures a != b && b != j && j != a && a in Deps(wf, j) && a < |wf| && b < |wf| && j < |wf|
  {
    NotOwnAncestor(wf, order, b);
    DepIsAncestor(wf, b, j);
    forall d | d in Deps(wf, a) ensures d in Remains(wf, a, b) {
      DepAbove(wf, order, d, a);
      if Ancestor(wf, b, d) { AncestorTransitive(wf, b, d, a); }
    }
    forall d | d in Deps(wf, b) ensures d in Remains(wf, a, b) {
      DepAbove(wf, order, d, b);
      if Ancestor(wf, b, d) { AncestorTransitive(wf, b, d, b); }
    }
    forall d | d in Deps(wf, j) ensures d in Remains(wf, a, b) + {a, b} { DepAbove(wf, order, d, j); }
  }

  lemma {:induction false} DepAbove(wf: Workflow, order: seq<nat>, d: nat, x: nat)
    requires Topological(wf, order) && x < |wf| && d in Deps(wf, x)
    ensures d < |wf| && d != x && Ancestor(wf, d, x)
  {
    var i := PlaceOf(wf, order, x);
    var k := DepBefore(wf, order, i, d);
    DepIsAncestor(wf, d, x);
  }

  lemma {:induction false} BelowNotResumed(wf: Workflow, order: seq<nat>, st: State, a: nat, b: nat)
    requires Topological(wf, order) && Elems(st.resumed) == Remains(wf, a, b)
    ensures Spares(wf, st, b)
  {
    forall x | x in DependentsOf(wf, b) ensures x !in Elems(st.resumed) {
      assert b in Deps(wf, x);
      DepAbove(wf, order, b, x);
    }
  }

  // ---- How it happens ----

  /** A run from `usable` that has come to `st`, with nothing made of the mark. */
  ghost predicate Underway(wf: Workflow, work: Work, order: seq<nat>, usable: Outputs, j: nat, mark: DataId,
                           events: seq<Event>, st: State, quit: set<nat>) {
    RunOf(wf, Does(work), order, usable, events, st) && Steady(wf, st, quit) && Untainted(wf, st, j, mark)
  }

  lemma {:induction false} RunExtends(wf: Workflow, out: Task -> Option<DataId>, order: seq<nat>, usable: Outputs,
                                      events: seq<Event>, st: State, e: Event)
    requires RunOf(wf, out, order, usable, events, st) && WellSized(wf, st)
    requires e.step in st.running && Possible(out, st.running[e.step], e.result) && Advance(wf, st, e).Some?
    ensures RunOf(wf, out, order, usable, events + [e], Advance(wf, st, e).value)
  {
    hide Start, Launch, Advance, Runs, Topological;
    RunsAppend(wf, out, Launch(wf, Start(wf, order, usable).value), events, st, e);
  }

  lemma {:induction false} OneMoreBack(wf: Workflow, work: Work, order: seq<nat>, usable: Outputs, b: nat, j: nat,
                                       mark: DataId, events: seq<Event>, st: State, quit: set<nat>, e: Event)
    returns (next: State, quit': set<nat>)
    requires Traced(wf, work, b, j, mark) && Underway(wf, work, order, usable, j, mark, events, st, quit)
    requires e.step in st.running && e.step !in st.resumed && Possible(Does(work), st.running[e.step], e.result)
    requires e.result.success || Spares(wf, st, e.step)
    requires e.step == b ==> !e.result.success
    ensures Underway(wf, work, order, usable, j, mark, events + [e], next, quit')
    ensures WellSized(wf, st) && Advance(wf, st, e) == Some(next)
    ensures next.resumed == st.resumed && next.results == st.results[e.step := e.result]
    ensures forall x | x in st.running && x != e.step :: x in next.running
    ensures e.result.success ==> quit' == quit && next.abandoned == st.abandoned
  {
    hide Inv, RunOf, Traced, Untainted, Spares, Does, Advance, Possible;
    quit' := AdvanceKeeps(wf, st, quit, e);
    next := Advance(wf, st, e).value;
    AdvanceRecords(wf, st, e);
    AdvanceUntainted(wf, work, b, j, mark, st, e);
    RunExtends(wf, Does(work), order, usable, events, st, e);
    forall x | x in st.running && x != e.step ensures x in next.running { RunningStays(wf, st, e, x); }
  }

  /** Both go out. */
  lemma {:induction false} BothStart(wf: Workflow, work: Work, order: seq<nat>, usable: Outputs, a: nat, b: nat,
                                     j: nat, mark: DataId)
    returns (st: State)
    requires NoDuplicates(wf) && Topological(wf, order) && Fork(wf, a, b, j) && Traced(wf, work, b, j, mark)
    requires usable.Keys == Remains(wf, a, b) && forall x | x in usable :: usable[x] != mark
    ensures Underway(wf, work, order, usable, j, mark, [], st, {}) && st.results == map[]
    ensures Elems(st.resumed) == Remains(wf, a, b) && a in st.running && b in st.running
  {
    ForkReads(wf, order, a, b, j);
    assert mark !in wf[j].task.inputs;
    assert Done(order, usable) == Remains(wf, a, b) by {
      CoversAll(|wf|, order);
      forall x | x in usable ensures x in order { assert x in Elems(order); }
    }
    assert a !in Remains(wf, a, b) && b !in Remains(wf, a, b) && a < |wf| && b < |wf|;
    hide Inv, RunOf, Topological, NoDuplicates, Traced, Untainted, Start, Launch, Does, Fork, Remains, Done;
    Launched(wf, order, usable);
    StartUntainted(wf, order, usable, j, mark);
    NothingYet(wf, Does(work), order, usable);
    st := Launch(wf, Start(wf, order, usable).value);
    GoesOutAtOnce(wf, st, a);
    GoesOutAtOnce(wf, st, b);
  }

  lemma {:induction false} GoesOutAtOnce(wf: Workflow, st: State, x: nat)
    requires NoDuplicates(wf) && Steady(wf, st, {}) && st.results == map[] && st.abandoned == []
    requires x < |wf| && x !in Elems(st.resumed) && Deps(wf, x) <= Elems(st.resumed)
    ensures x in st.running
  {
    ActiveHeard(wf, st, {}, x);
  }

  /** `b` fails, `a` succeeds, and the join goes out without the output of `b`. */
  lemma {:induction false} PastFailure(wf: Workflow, work: Work, order: seq<nat>, usable: Outputs, a: nat, b: nat,
                                       j: nat, mark: DataId)
    returns (events: seq<Event>, st: State, quit: set<nat>)
    requires NoDuplicates(wf) && Topological(wf, order) && Fork(wf, a, b, j) && Traced(wf, work, b, j, mark)
    requires usable.Keys == Remains(wf, a, b) && forall x | x in usable :: usable[x] != mark
    ensures Underway(wf, work, order, usable, j, mark, events, st, quit)
    ensures j in st.running && j !in st.resumed && Failed(st, b)
  {
    hide Underway, Topological, NoDuplicates, Traced, Does, Fork, Remains, Spares, Advance, WellSized;
    ForkReads(wf, order, a, b, j);
    var start := BothStart(wf, work, order, usable, a, b, j, mark);
    BelowNotResumed(wf, order, start, a, b);
    var e1 := Event(b, TaskResult(false, None));
    var mid, q1 := OneMoreBack(wf, work, order, usable, b, j, mark, [], start, {}, e1);
    var e2 := Event(a, TaskResult(true, Does(work)(mid.running[a])));
    st, quit := OneMoreBack(wf, work, order, usable, b, j, mark, [] + [e1], mid, q1, e2);
    events := [] + [e1] + [e2];
    assert j !in Elems(mid.resumed);
    JoinPast(wf, work, order, usable, j, mark, [] + [e1], events, mid, st, quit, e2);
  }

  lemma {:induction false} JoinPast(wf: Workflow, work: Work, order: seq<nat>, usable: Outputs, j: nat, mark: DataId,
                                    before: seq<Event>, events: seq<Event>, mid: State, st: State, quit: set<nat>,
                                    e: Event)
    requires Underway(wf, work, order, usable, j, mark, before, mid, quit)
    requires Underway(wf, work, order, usable, j, mark, events, st, quit) && NoDuplicates(wf)
    requires WellSized(wf, mid) && Advance(wf, mid, e) == Some(st) && st.abandoned == mid.abandoned
    requires e.step in mid.running && e.step !in mid.resumed && e.result.success
    requires j < |wf| && j !in mid.resumed && e.step in Deps(wf, j) && j !in mid.results && j != e.step
    requires Deps(wf, j) <= Elems(mid.resumed) + mid.results.Keys + {e.step}
    ensures j in st.running
  {
    hide Inv, RunOf, NoDuplicates, Untainted, Advance;
    JoinGoesOut(wf, mid, quit, e, j);
  }

  /** And is recorded. */
  lemma {:induction false} UnclosedAttempt(wf: Workflow, work: Work, order: seq<nat>, usable: Outputs, a: nat, b: nat,
                                           j: nat, mark: DataId)
    returns (events: seq<Event>, after: State)
    requires NoDuplicates(wf) && Topological(wf, order) && Fork(wf, a, b, j) && Traced(wf, work, b, j, mark)
    requires usable.Keys == Remains(wf, a, b) && forall x | x in usable :: usable[x] != mark
    ensures RunOf(wf, Does(work), order, usable, events, after) && Failed(after, b)
    ensures events != [] && events[|events| - 1] == Event(j, TaskResult(true, Some(Partial)))
  {
    hide NoDuplicates, Topological, Fork, Remains, Traced, RunOf, Steady, Does, Untainted, Advance, WellSized, Spares;
    ForkReads(wf, order, a, b, j);
    var before, st, quit := PastFailure(wf, work, order, usable, a, b, j, mark);
    SaysPartial(wf, work, b, j, mark, st);
    var e := Event(j, TaskResult(true, Some(Partial)));
    var q;
    after, q := OneMoreBack(wf, work, order, usable, b, j, mark, before, st, quit, e);
    events := before + [e];
  }

  // ---- Losing all but some of what was recorded ----

  /** What the steps in `kept` produce is told from everything else. */
  ghost predicate SortsOut(wf: Workflow, work: Work, kept: set<nat>) {
    forall k, x: nat | x < |wf| && LabelOf(k) == StepLabel(wf, x) :: x in kept <==> work(k) == Some(Kept)
  }

  lemma {:induction false} MarkedSortsOut(wf: Workflow, b: nat, j: nat, mark: DataId, kept: set<nat>)
    requires b < |wf| && j < |wf| && Distinguishable(wf) && |mark.content| >= 2
    requires b !in kept && j !in kept
    ensures SortsOut(wf, MarkedWork(wf, b, j, mark, kept), kept)
  {
    assert |FlowPoison.Whole.content| == 0 && |Kept.content| == 1 && Partial.content[0] != Kept.content[0];
    var work := MarkedWork(wf, b, j, mark, kept);
    forall k, x: nat | x < |wf| && LabelOf(k) == StepLabel(wf, x) ensures x in kept <==> work(k) == Some(Kept) {
      assert StepLabel(wf, x) in LabelsOf(wf, kept) <==> x in kept by {
        forall y | y in kept && y < |wf| && StepLabel(wf, y) == StepLabel(wf, x) ensures y == x {}
      }
      assert x in kept ==> StepLabel(wf, x) != StepLabel(wf, b) && StepLabel(wf, x) != StepLabel(wf, j);
    }
  }

  /** What is found of a step that came back is what such work produces. */
  lemma {:induction false} FoundMade(wf: Workflow, work: Work, order: seq<nat>, name: Named, h: seq<Attempt>,
                                     kept: set<nat>, x: nat)
    requires |h| == 1 && RunOf(wf, Does(work), order, map[], h[0].events, h[0].stopped) && SortsOut(wf, work, kept)
    requires x in Found(JournalAt(name, h, 1), name)
    ensures x < |wf| && (x in kept <==> Found(JournalAt(name, h, 1), name)[x] == Kept)
  {
    var records := JournalAt(name, h, 1);
    RunMade(wf, work, order, map[], h[0].events, h[0].stopped);
    hide RunOf, Does, StepLabel;
    FoundLatest(name, h, 1, x);
    LatestIn(records, name.run, x);
    var r := Latest(records, name.run, x).value;
    JournalCame(name, h, 1, r);
    hide JournalAt, Found, Latest;
    var i :| 0 <= i < 1 && CameBack(h[i].events, x, r.outputId);
    assert MadeBy(wf, work, Event(x, TaskResult(true, Some(r.outputId))));
  }

  lemma {:induction false} AllRecorded(wf: Workflow, work: Work, order: seq<nat>, name: Named, h: seq<Attempt>, x: nat)
    requires |h| == 1 && RunOf(wf, Does(work), order, map[], h[0].events, h[0].stopped)
    requires (forall k :: work(k).Some?) && Succeeded(h[0].stopped, x)
    ensures x in Found(JournalAt(name, h, 1), name)
  {
    hide RunOf, Does, JournalAt, Found, Succeeded, CameBack;
    var id := SucceededCame(wf, work, order, h[0].events, h[0].stopped, x);
    var r := Record(name.run, name.fingerprint, x, id);
    JournalCame(name, h, 1, r);
    LatestIn(JournalAt(name, h, 1), name.run, x);
    FoundLatest(name, h, 1, x);
  }

  /** After an attempt that recorded everything, the next finds any set it is to find. */
  lemma {:induction false} SomeHeld(wf: Workflow, work: Work, order: seq<nat>, name: Named, h: seq<Attempt>,
                                    kept: set<nat>)
    requires |h| == 1 && RunOf(wf, Does(work), order, map[], h[0].events, h[0].stopped)
    requires (forall k :: work(k).Some?) && SortsOut(wf, work, kept) && kept <= Below(|wf|)
    requires forall x: nat | x < |wf| :: Succeeded(h[0].stopped, x)
    ensures var usable := NextUsable(name, h, {Kept});
            usable.Keys == kept && forall x | x in usable :: usable[x] == Kept
  {
    hide RunOf, Does, JournalAt, Found, Succeeded, SortsOut;
    var found, usable := Found(JournalAt(name, h, 1), name), NextUsable(name, h, {Kept});
    forall x: nat ensures x in usable <==> x in kept {
      if x in found {
        FoundMade(wf, work, order, name, h, kept, x);
      } else if x in kept {
        assert x in Below(|wf|);
        AllRecorded(wf, work, order, name, h, x);
      }
    }
  }

  // ---- The history ----

  /** Three attempts. The first runs everything. The second finds all but `a`, `b` and what is
      downstream of `b`; `b` fails, `a` succeeds and the join runs without `b`. The third
      finds everything, ends at once, and reports success with the wrong output. */
  ghost predicate GoesWrong(wf: Workflow, work: Work, order: seq<nat>, name: Named, h: seq<Attempt>, a: nat, b: nat,
                            j: nat) {
    && History(wf, work, order, name, h) && |h| == 3 && h[0].wf == h[1].wf == h[2].wf == wf
    && UsableAt(name, h, 0) == map[] && (forall x: nat | x < |wf| :: Succeeded(h[0].stopped, x))
    && UsableAt(name, h, 1).Keys == Remains(wf, a, b) && Failed(h[1].stopped, b)
    && h[1].events != [] && h[1].events[|h[1].events| - 1] == Event(j, TaskResult(true, Some(Partial)))
    && UsableAt(name, h, 2).Keys == Below(|wf|) && EndsWell(h[2]) && IsSuccess(Report(wf, h[2].stopped))
    && j in h[2].stopped.outputs && h[2].stopped.outputs[j] == Partial
  }

  lemma {:induction false} UnclosedHistory(wf: Workflow, order: seq<nat>, name: Named, a: nat, b: nat, j: nat)
    returns (work: Work, h: seq<Attempt>)
    requires NoDuplicates(wf) && Topological(wf, order) && Within(order, |wf|)
    requires Fork(wf, a, b, j) && Distinguishable(wf)
    ensures GoesWrong(wf, work, order, name, h, a, b, j)
    ensures h[2].stopped.outputs != SeqEval(wf, Does(work), order)
  {
    assert b in Deps(wf, j);
    hide NoDuplicates, Topological, Within, Fork, Distinguishable, MarkedWork, Does, Traced, GoesWrong, EvalFirst;
    ForkReads(wf, order, a, b, j);
    var kept := Remains(wf, a, b);
    hide Remains;
    var mark := TracedAt(wf, b, j, kept);
    work := MarkedWork(wf, b, j, mark, kept);
    MarkedSortsOut(wf, b, j, mark, kept);
    h := WrongHistory(wf, work, order, name, a, b, j, mark);
    RightAnswer(wf, work, order, b, j, mark);
    assert h[2].stopped.outputs[j] == Partial by { WrongAt(wf, work, order, name, h, a, b, j); }
  }

  lemma {:induction false} WrongAt(wf: Workflow, work: Work, order: seq<nat>, name: Named, h: seq<Attempt>, a: nat,
                                   b: nat, j: nat)
    requires GoesWrong(wf, work, order, name, h, a, b, j)
    ensures |h| == 3 && EndsWell(h[2]) && j in h[2].stopped.outputs && h[2].stopped.outputs[j] == Partial
    ensures UsableAt(name, h, 2).Keys == Below(|wf|) && History(wf, work, order, name, h)
  {}

  lemma {:induction false} WrongHistory(wf: Workflow, work: Work, order: seq<nat>, name: Named, a: nat, b: nat, j: nat,
                                        mark: DataId)
    returns (h: seq<Attempt>)
    requires NoDuplicates(wf) && Topological(wf, order) && Fork(wf, a, b, j)
    requires Traced(wf, work, b, j, mark) && SortsOut(wf, work, Remains(wf, a, b)) && |mark.content| >= 2
    ensures GoesWrong(wf, work, order, name, h, a, b, j) && |h| == 3
  {
    hide NoDuplicates, Topological, Fork, Traced, SortsOut, RunOf, Does, Succeeded, Failed, Remains;
    hide History, UsableAt, NextUsable, EndsWell, IsSuccess, Report;
    AlwaysLeaves(wf, work, b, j, mark);
    var first := RunsEverything(wf, work, order);
    var second := UnclosedSecond(wf, work, order, name, [first], a, b, j, mark);
    h := ThirdAttempt(wf, work, order, name, first, second, j);
  }

  lemma {:induction false} RunsEverything(wf: Workflow, work: Work, order: seq<nat>) returns (first: Attempt)
    requires NoDuplicates(wf) && Topological(wf, order)
    ensures first.wf == wf && first.held == {} && forall x: nat | x < |wf| :: Succeeded(first.stopped, x)
    ensures RunOf(wf, Does(work), order, map[], first.events, first.stopped)
  {
    hide NoDuplicates, Topological, RunOf, Does, Succeeded;
    var events, after := FullAttempt(wf, Does(work), order);
    first := Attempt(wf, {}, events, after);
  }

  lemma {:induction false} UnclosedSecond(wf: Workflow, work: Work, order: seq<nat>, name: Named, h: seq<Attempt>,
                                          a: nat, b: nat, j: nat, mark: DataId)
    returns (second: Attempt)
    requires NoDuplicates(wf) && Topological(wf, order) && Fork(wf, a, b, j)
    requires Traced(wf, work, b, j, mark) && SortsOut(wf, work, Remains(wf, a, b)) && |mark.content| >= 2
    requires |h| == 1 && RunOf(wf, Does(work), order, map[], h[0].events, h[0].stopped)
    requires forall x: nat | x < |wf| :: Succeeded(h[0].stopped, x)
    ensures second.wf == wf && NextUsable(name, h, second.held).Keys == Remains(wf, a, b) && Failed(second.stopped, b)
    ensures RunOf(wf, Does(work), order, NextUsable(name, h, second.held), second.events, second.stopped)
    ensures second.events != [] && second.events[|second.events| - 1] == Event(j, TaskResult(true, Some(Partial)))
  {
    hide NoDuplicates, Topological, Fork, Traced, SortsOut, RunOf, Does, Succeeded, Failed, NextUsable, Ancestor;
    AlwaysLeaves(wf, work, b, j, mark);
    assert Remains(wf, a, b) <= Below(|wf|) && mark != Kept;
    hide Remains;
    SomeHeld(wf, work, order, name, h, Remains(wf, a, b));
    var events, after := UnclosedAttempt(wf, work, order, NextUsable(name, h, {Kept}), a, b, j, mark);
    second := Attempt(wf, {Kept}, events, after);
  }

  lemma {:induction false} IndirectPoisons(wf: Workflow)
    requires NoDuplicates(wf) && Acyclic(wf) && !DirectlyChained(wf) && Distinguishable(wf)
    ensures !forall work :: Preserves(wf, work)
  {
    var order :| Topological(wf, order);
    assert Within(order, |wf|);
    var a, b, j := ForkPlace(wf, order);
    hide NoDuplicates, DirectlyChained, Distinguishable, EvalFirst, Fork, GoesWrong, EndsWell, Closed, UsableAt, History;
    var work, h := UnclosedHistory(wf, order, Named("", ""), a, b, j);
    WrongAt(wf, work, order, Named("", ""), h, a, b, j);
    AllClosed(wf, order);
    assert !Preserves(wf, work);
  }

  // ---- Exactly when resuming preserves meaning ----

  /** Whatever the attempts before the one that ends resumed, closed or not, resuming preserves
      meaning, for every kind of work, exactly when of any two dependencies of a step one is
      itself a dependency of the other. */
  lemma {:induction false} ResumeAnyExactly(wf: Workflow)
    requires NoDuplicates(wf) && Acyclic(wf) && Distinguishable(wf)
    ensures (forall work :: Preserves(wf, work)) <==> DirectlyChained(wf)
  {
    hide NoDuplicates, DirectlyChained, Distinguishable, Preserves, Acyclic;
    if DirectlyChained(wf) {
      forall work ensures Preserves(wf, work) { DirectPreserves(wf, work); }
    } else {
      IndirectPoisons(wf);
    }
  }

  /** The same of the graph alone, whatever its steps do. */
  lemma {:induction false} ResumeAnyExactlyForShape(wf: Workflow)
    requires NoDuplicates(wf) && Acyclic(wf)
    ensures (forall other, work | SameShape(wf, other) :: Preserves(other, work)) <==> DirectlyChained(wf)
  {
    hide DirectlyChained, Distinguishable, Preserves;
    var order :| Topological(wf, order);
    if DirectlyChained(wf) {
      forall other, work | SameShape(wf, other) ensures Preserves(other, work) {
        SameGraph(wf, other, order, {});
        SameDirect(wf, other);
        DirectPreserves(other, work);
      }
    } else {
      var l := Labelled(wf);
      LabelledTells(wf);
      SameGraph(wf, l, order, {});
      assert Acyclic(l);
      if DirectlyChained(l) { SameDirect(l, wf); }
      IndirectPoisons(l);
      var work :| !Preserves(l, work);
    }
  }

  // ---- On one path, and still ----

  /** Step 1 reads step 0, step 2 reads step 1, and step 3 reads steps 0 and 2. */
  predicate IsLadder(wf: Workflow) {
    && |wf| == 4 && wf[0].dependsOn == [] && wf[1].dependsOn == [0] && wf[2].dependsOn == [1]
    && wf[3].dependsOn == [0, 2]
  }

  const Rungs: seq<nat> := [0, 1, 2, 3]

  lemma {:induction false} LadderPlan(wf: Workflow)
    requires IsLadder(wf)
    ensures NoDuplicates(wf) && Topological(wf, Rungs) && Within(Rungs, |wf|)
    ensures Deps(wf, 0) == {} && Deps(wf, 1) == {0} && Deps(wf, 2) == {1} && Deps(wf, 3) == {0, 2}
  {
    assert Rungs[..0] == [] && Rungs[..1] == [0] && Rungs[..2] == [0, 1] && Rungs[..3] == [0, 1, 2];
    assert Elems([]) == {} && Elems([0]) == {0} && Elems([1]) == {1} && Elems([0, 2]) == {0, 2};
    assert Elems([0, 1]) == {0, 1} && Elems([0, 1, 2]) == {0, 1, 2};
  }

  lemma {:induction false} LadderPlace(wf: Workflow)
    requires IsLadder(wf)
    ensures Chained(wf) && !DirectlyChained(wf) && Fork(wf, 0, 2, 3) && Remains(wf, 0, 2) == {1}
  {
    LadderPlan(wf);
    hide NoDuplicates, Topological;
    DepIsAncestor(wf, 0, 1);
    DepIsAncestor(wf, 1, 2);
    DepIsAncestor(wf, 2, 3);
    AncestorTransitive(wf, 0, 1, 2);
    NotOwnAncestor(wf, Rungs, 2);
    if Ancestor(wf, 2, 0) { var d := LastEdge(wf, 2, 0); }
    if Ancestor(wf, 2, 1) { var d := LastEdge(wf, 2, 1); }
    hide Ancestor;
    assert !Direct(wf, 0, 2);
    assert !DirectAt(wf, 3);
    forall j: nat | j < |wf| ensures ChainedAt(wf, j) {
      assert j == 0 || j == 1 || j == 2 || j == 3;
    }
    assert Below(|wf|) == {0, 1, 2, 3};
  }

  /** There the dependencies of every step lie on one path, so closed histories do no harm;
      but with only step 1 to resume, step 2 may fail and step 3 still run once step 0
      succeeds, and the next attempt, which finds everything, reports it a success. */
  lemma {:induction false} LadderHistory(wf: Workflow, name: Named) returns (work: Work, h: seq<Attempt>)
    requires IsLadder(wf) && Distinguishable(wf)
    ensures Within(Rungs, |wf|) && Chained(wf) && History(wf, work, Rungs, name, h) && |h| == 3
    ensures UsableAt(name, h, 1).Keys == {1} && Failed(h[1].stopped, 2)
    ensures Closed(wf, UsableAt(name, h, 2).Keys) && EndsWell(h[2]) && IsSuccess(Report(wf, h[2].stopped))
    ensures h[2].stopped.outputs != SeqEval(wf, Does(work), Rungs)
  {
    hide NoDuplicates, Topological, Within, Fork, Remains, Chained, DirectlyChained, Distinguishable, Does, EvalFirst;
    hide History, UsableAt, Failed, EndsWell, IsSuccess, Report, Closed;
    LadderPlan(wf);
    LadderPlace(wf);
    work, h := UnclosedHistory(wf, Rungs, name, 0, 2, 3);
    AllClosed(wf, Rungs);
  }
}
