/** The smallest workflow in which a record goes wrong with nothing ever lost: two steps
    and a join of both. */
module FlowJoin {
  import opened Core
  import opened Workflows
  import opened Ancestry
  import opened Flows
  import opened FlowInvariant
  import opened FlowRuns
  import opened FlowTheorems
  import opened FlowIsolation
  import opened FlowLaws
  import opened FlowResume
  import opened FlowHistory
  import opened FlowPoison
  import opened Journals
  import Caches

  /** Steps 0 and 1 read nothing; step 2 reads both. */
  predicate IsJoin(wf: Workflow) {
    |wf| == 3 && wf[0].dependsOn == [] && wf[1].dependsOn == [] && wf[2].dependsOn == [0, 1]
  }

  const Plan: seq<nat> := [0, 1, 2]

  lemma {:induction false} JoinPlan(wf: Workflow)
    requires IsJoin(wf)
    ensures NoDuplicates(wf) && Topological(wf, Plan) && Within(Plan, |wf|)
    ensures Deps(wf, 0) == {} && Deps(wf, 1) == {} && Deps(wf, 2) == {0, 1}
  {
    assert Plan[..2] == [0, 1];
    assert Elems([0, 1]) == {0, 1} && Elems([]) == {};
    assert Elems(Plan[..2]) == {0, 1};
  }

  lemma {:induction false} JoinSteps(wf: Workflow)
    requires IsJoin(wf)
    ensures |wf| == 3 && Below(|wf|) == {0, 1, 2}
  {}

  lemma {:induction false} NothingAbove(wf: Workflow, a: nat, x: nat)
    requires x < |wf| && Deps(wf, x) == {}
    ensures !Ancestor(wf, a, x)
  {
    if Ancestor(wf, a, x) { var d := LastEdge(wf, a, x); }
  }

  /** Step 0 fails, step 1 succeeds, and the join runs and is recorded all the same. */
  lemma {:induction false} FirstAttempt(wf: Workflow, work: Work, mark: DataId) returns (events: seq<Event>, after: State)
    requires IsJoin(wf) && Traced(wf, work, 0, 2, mark)
    ensures RunOf(wf, Does(work), Plan, map[], events, after)
    ensures Failed(after, 0) && Succeeded(after, 1)
    ensures events != [] && events[|events| - 1] == Event(2, TaskResult(true, Some(Partial)))
  {
    JoinPlace(wf);
    hide RunOf, Traced, Does, Elsewhere, Topological, NoDuplicates, Comparable, IsJoin;
    events, after := FailThenJoin(wf, work, Plan, 0, 1, 2, mark);
  }

  /** The two steps are unrelated, and there is nothing else. */
  lemma {:induction false} JoinPlace(wf: Workflow)
    requires IsJoin(wf)
    ensures |wf| == 3 && NoDuplicates(wf) && Topological(wf, Plan) && Deps(wf, 2) == {0, 1} && !Comparable(wf, 0, 1)
    ensures Deps(wf, 2) <= Elsewhere(wf, 0, 1) + {0, 1} && 2 !in Elsewhere(wf, 0, 1) + {0, 1}
  {
    JoinPlan(wf);
    NothingAbove(wf, 0, 1);
    NothingAbove(wf, 1, 0);
    DepIsAncestor(wf, 0, 2);
    hide Ancestor, Topological;
  }

  lemma {:induction false} FoundCame(name: Named, h: seq<Attempt>, n: nat, x: nat)
    requires n <= |h| && x in Found(JournalAt(name, h, n), name)
    ensures exists i, d :: 0 <= i < n && CameBack(h[i].events, x, d)
  {
    var records := JournalAt(name, h, n);
    FoundLatest(name, h, n, x);
    LatestIn(records, name.run, x);
    JournalCame(name, h, n, Latest(records, name.run, x).value);
    hide JournalAt, Found, Latest, CameBack;
  }

  /** The first attempt ends with the join's record. */
  predicate EndsWithJoin(h: seq<Attempt>) {
    && h != [] && h[0].events != []
    && h[0].events[|h[0].events| - 1] == Event(2, TaskResult(true, Some(Partial)))
  }

  lemma {:induction false} JoinRecorded(name: Named, h: seq<Attempt>)
    requires EndsWithJoin(h)
    ensures Latest(JournalAt(name, h, 1), name.run, 2) == Some(Record(name.run, name.fingerprint, 2, Partial))
  {
    var records, r := JournalAt(name, h, 1), Record(name.run, name.fingerprint, 2, Partial);
    var events := h[0].events;
    assert Logged(name, events) == Logged(name, events[..|events| - 1]) + [r];
    assert JournalAt(name, h, 0) == [];
    assert records == [] + Logged(name, events);
    assert records[|records| - 1] == r;
  }

  lemma {:induction false} CameFound(name: Named, h: seq<Attempt>, n: nat, i: nat, x: nat, id: DataId)
    requires i < n <= |h| && CameBack(h[i].events, x, id)
    ensures x in Found(JournalAt(name, h, n), name)
  {
    var records := JournalAt(name, h, n);
    JournalCame(name, h, n, Record(name.run, name.fingerprint, x, id));
    LatestIn(records, name.run, x);
    FoundLatest(name, h, n, x);
  }

  /** A step that failed is not recorded. */
  lemma {:induction false} NotRecorded(wf: Workflow, work: Work, order: seq<nat>, name: Named, h: seq<Attempt>, x: nat)
    requires |wf| == 3 && h != [] && RunOf(wf, Does(work), order, map[], h[0].events, h[0].stopped)
    requires Failed(h[0].stopped, 0)
    requires x in Found(JournalAt(name, h, 1), name)
    ensures x == 1 || x == 2
  {
    hide RunOf, JournalAt, Found, Done, Closed, Does;
    FoundCame(name, h, 1, x);
    var i, d :| 0 <= i < 1 && CameBack(h[i].events, x, d);
    EmptyStart(wf, order);
    RunMade(wf, work, order, map[], h[0].events, h[0].stopped);
    assert MadeBy(wf, work, Event(x, TaskResult(true, Some(d))));
    CameRecorded(wf, Does(work), order, map[], h[0].events, h[0].stopped, x, d);
  }

  lemma {:induction false} EmptyStart(wf: Workflow, order: seq<nat>)
    ensures Closed(wf, Done(order, map[]))
  {}

  /** What the first attempt leaves: a record of each step but the one that failed. */
  lemma {:induction false} AfterFirst(wf: Workflow, work: Work, order: seq<nat>, name: Named, h: seq<Attempt>)
    requires |wf| == 3 && h != [] && EndsWithJoin(h) && forall k :: work(k).Some?
    requires RunOf(wf, Does(work), order, map[], h[0].events, h[0].stopped)
    requires Failed(h[0].stopped, 0) && Succeeded(h[0].stopped, 1)
    ensures Found(JournalAt(name, h, 1), name).Keys == {1, 2}
  {
    hide RunOf, JournalAt, Found, CameBack, Failed, Succeeded, Latest, EndsWithJoin;
    var id := SucceededCame(wf, work, order, h[0].events, h[0].stopped, 1);
    CameFound(name, h, 1, 0, 1, id);
    JoinRecorded(name, h);
    FoundLatest(name, h, 1, 2);
    forall x | x in Found(JournalAt(name, h, 1), name) ensures x == 1 || x == 2 {
      NotRecorded(wf, work, order, name, h, x);
    }
  }

  // ---- The second attempt runs what failed, and stops ----

  /** Resuming the other two, step 0 goes out as itself. */
  lemma {:induction false} SecondStarts(wf: Workflow, usable: Outputs) returns (st: State)
    requires IsJoin(wf) && usable.Keys == {1, 2}
    ensures Start(wf, Plan, usable).Some? && WellSized(wf, Start(wf, Plan, usable).value)
    ensures st == Launch(wf, Start(wf, Plan, usable).value) && Steady(wf, st, {}) && 0 in st.running && 0 !in st.resumed
    ensures LabelOf(Caches.KeyOf(st.running[0])) == StepLabel(wf, 0)
  {
    JoinPlan(wf);
    assert Done(Plan, usable) == {1, 2};
    hide Inv, Start, Launch, Topological, NoDuplicates;
    Launched(wf, Plan, usable);
    st := Launch(wf, Start(wf, Plan, usable).value);
    ZeroGoesOut(wf, st);
    ZeroIsItself(wf, usable);
    assert 0 !in Elems(st.resumed);
  }

  lemma {:induction false} OneEvent(wf: Workflow, out: Task -> Option<DataId>, order: seq<nat>, usable: Outputs,
                                    e: Event)
    requires Topological(wf, order) && Start(wf, order, usable).Some? && WellSized(wf, Start(wf, order, usable).value)
    requires WellSized(wf, Launch(wf, Start(wf, order, usable).value))
    requires var st := Launch(wf, Start(wf, order, usable).value);
             e.step in st.running && Possible(out, st.running[e.step], e.result) && Advance(wf, st, e).Some?
    ensures RunOf(wf, out, order, usable, [e], Advance(wf, Launch(wf, Start(wf, order, usable).value), e).value)
  {
    hide Start, Launch, Advance, Topological;
    var st := Launch(wf, Start(wf, order, usable).value);
    var next := Advance(wf, st, e).value;
    assert [e][1..] == [];
    assert Runs(wf, out, next, [e][1..], next);
  }

  /** And comes back. */
  lemma {:induction false} SecondAttempt(wf: Workflow, work: Work, mark: DataId, usable: Outputs) returns (after: State)
    requires IsJoin(wf) && Traced(wf, work, 0, 2, mark) && usable.Keys == {1, 2}
    ensures RunOf(wf, Does(work), Plan, usable, [Event(0, TaskResult(true, Some(mark)))], after)
  {
    var out, e := Does(work), Event(0, TaskResult(true, Some(mark)));
    JoinPlan(wf);
    hide Inv, RunOf, Start, Launch, Topological, Advance, NoDuplicates, IsJoin, Traced;
    var st := SecondStarts(wf, usable);
    assert Possible(out, st.running[0], e.result);
    hide Does, Possible;
    var quit := AdvanceKeeps(wf, st, {}, e);
    OneEvent(wf, out, Plan, usable, e);
    after := Advance(wf, st, e).value;
  }

  lemma {:induction false} ZeroGoesOut(wf: Workflow, st: State)
    requires IsJoin(wf) && Steady(wf, st, {}) && Elems(st.resumed) == {1, 2} && st.results == map[]
    requires st.abandoned == []
    ensures 0 in st.running
  {
    JoinPlan(wf);
    ZeroMeansHeard(wf, st.waiting, Sources(st, {}), 0);
    assert !Idle(wf, Elems(st.resumed), 0);
    assert 0 in Active(st);
  }

  lemma {:induction false} ZeroIsItself(wf: Workflow, usable: Outputs)
    requires IsJoin(wf) && Start(wf, Plan, usable).Some? && WellSized(wf, Start(wf, Plan, usable).value)
    requires 0 in Launch(wf, Start(wf, Plan, usable).value).running && Topological(wf, Plan)
    ensures LabelOf(Caches.KeyOf(Launch(wf, Start(wf, Plan, usable).value).running[0])) == StepLabel(wf, 0)
  {
    StartInv(wf, Plan, usable);
    TaskLabel(wf, 0, Start(wf, Plan, usable).value.outputs);
    hide Start, Inv;
  }

  // ---- The third finds everything ----

  lemma {:induction false} AfterSecond(name: Named, h: seq<Attempt>, mark: DataId)
    requires |h| == 2 && Found(JournalAt(name, h, 1), name).Keys == {1, 2} && EndsWithJoin(h)
    requires h[1].events == [Event(0, TaskResult(true, Some(mark)))]
    ensures var found := Found(JournalAt(name, h, 2), name); found.Keys == {0, 1, 2} && found[2] == Partial
  {
    var before, records, r := JournalAt(name, h, 1), JournalAt(name, h, 2), Record(name.run, name.fingerprint, 0, mark);
    assert Logged(name, h[1].events) == [r] by { assert h[1].events[..0] == []; }
    assert records == before + [r] && records[..|before|] == before;
    JoinRecorded(name, h);
    forall x: nat ensures x in Found(records, name) <==> x == 0 || x in Found(before, name) {
      FoundLatest(name, h, 2, x);
      FoundLatest(name, h, 1, x);
    }
    FoundLatest(name, h, 2, 2);
  }

  /** Nothing is ever lost: whatever is recorded is found. */
  ghost predicate NothingLost(name: Named, h: seq<Attempt>) {
    forall n | 0 <= n < |h| :: UsableAt(name, h, n) == Found(JournalAt(name, h, n), name)
  }

  lemma {:induction false} NothingLostMore(name: Named, h: seq<Attempt>, a: Attempt)
    requires NothingLost(name, h) && a.held == Found(JournalAt(name, h, |h|), name).Values
    ensures NothingLost(name, h + [a]) && NextUsable(name, h, a.held) == Found(JournalAt(name, h, |h|), name)
  {
    hide JournalAt, Found;
    assert NextUsable(name, h, a.held) == Found(JournalAt(name, h, |h|), name);
    hide NextUsable, UsableAt;
    forall n | 0 <= n < |h + [a]| ensures UsableAt(name, h + [a], n) == Found(JournalAt(name, h + [a], n), name) {
      UsableStays(name, h, a, n);
      assert (h + [a])[..n] == h[..n];
      JournalStays(name, h, h + [a], n);
    }
  }

  /** The history so far, with nothing lost. */
  ghost predicate SoFar(wf: Workflow, work: Work, name: Named, h: seq<Attempt>) {
    History(wf, work, Plan, name, h) && NothingLost(name, h)
  }

  /** One more attempt, that finds everything recorded. */
  lemma {:induction false} GoesOn(wf: Workflow, work: Work, name: Named, h: seq<Attempt>, events: seq<Event>,
                                  stopped: State)
    returns (next: seq<Attempt>)
    requires SoFar(wf, work, name, h)
    requires RunOf(wf, Does(work), Plan, Found(JournalAt(name, h, |h|), name), events, stopped)
    ensures SoFar(wf, work, name, next) && |next| == |h| + 1 && next[..|h|] == h
    ensures next[|h|].events == events && next[|h|].stopped == stopped
    ensures UsableAt(name, next, |h|) == Found(JournalAt(name, h, |h|), name)
  {
    hide History, NothingLost, RunOf, Found, JournalAt, Does, UsableAt, NextUsable, Again;
    AgainSelf(wf);
    var a := Attempt(wf, Found(JournalAt(name, h, |h|), name).Values, events, stopped);
    NothingLostMore(name, h, a);
    OneMore(wf, work, Plan, name, h, a);
    UsableStays(name, h, a, |h|);
    next := h + [a];
  }

  lemma {:induction false} Begins(wf: Workflow, work: Work, name: Named)
    ensures SoFar(wf, work, name, []) && Found(JournalAt(name, [], 0), name) == map[]
  {}

  lemma {:induction false} AfterOne(wf: Workflow, work: Work, name: Named, events: seq<Event>, stopped: State)
    returns (one: seq<Attempt>)
    requires |wf| == 3 && RunOf(wf, Does(work), Plan, map[], events, stopped) && forall k :: work(k).Some?
    requires Failed(stopped, 0) && Succeeded(stopped, 1)
    requires events != [] && events[|events| - 1] == Event(2, TaskResult(true, Some(Partial)))
    ensures SoFar(wf, work, name, one) && |one| == 1 && EndsWithJoin(one)
    ensures Found(JournalAt(name, one, 1), name).Keys == {1, 2}
  {
    hide SoFar, RunOf, Does, Found, JournalAt, UsableAt, Failed, Succeeded;
    Begins(wf, work, name);
    one := GoesOn(wf, work, name, [], events, stopped);
    AfterFirst(wf, work, Plan, name, one);
  }

  lemma {:induction false} AfterTwo(wf: Workflow, work: Work, mark: DataId, name: Named,
                                    one: seq<Attempt>) returns (two: seq<Attempt>)
    requires IsJoin(wf) && Traced(wf, work, 0, 2, mark) && SoFar(wf, work, name, one) && |one| == 1
    requires EndsWithJoin(one) && Found(JournalAt(name, one, 1), name).Keys == {1, 2}
    ensures SoFar(wf, work, name, two) && |two| == 2
    ensures var found := Found(JournalAt(name, two, 2), name); found.Keys == {0, 1, 2} && found[2] == Partial
  {
    assert |wf| == 3;
    hide SoFar, RunOf, Traced, Does, Found, JournalAt, UsableAt, IsJoin;
    var e := Event(0, TaskResult(true, Some(mark)));
    var after := SecondAttempt(wf, work, mark, Found(JournalAt(name, one, 1), name));
    two := GoesOn(wf, work, name, one, [e], after);
    assert one[..1] == one == two[..1];
    JournalStays(name, one, two, 1);
    assert two[0] == two[..1][0];
    AfterSecond(name, two, mark);
  }

  lemma {:induction false} JoinGoesWrong(wf: Workflow, work: Work, mark: DataId, name: Named, events: seq<Event>,
                                         stopped: State)
    returns (h: seq<Attempt>)
    requires IsJoin(wf) && Traced(wf, work, 0, 2, mark) && Topological(wf, Plan)
    requires RunOf(wf, Does(work), Plan, map[], events, stopped)
    requires Failed(stopped, 0) && Succeeded(stopped, 1)
    requires events != [] && events[|events| - 1] == Event(2, TaskResult(true, Some(Partial)))
    ensures SoFar(wf, work, name, h) && |h| == 3 && EndsWell(h[2])
    ensures UsableAt(name, h, 2).Keys == Below(|wf|)
    ensures 2 in h[2].stopped.outputs && h[2].stopped.outputs[2] == Partial
  {
    JoinSteps(wf);
    assert forall k :: work(k).Some?;
    hide SoFar, RunOf, Topological, Traced, Does, Found, JournalAt, UsableAt, IsJoin, Failed, Succeeded;
    var one := AfterOne(wf, work, name, events, stopped);
    var two := AfterTwo(wf, work, mark, name, one);
    var after := NothingToDo(wf, Does(work), Plan, Found(JournalAt(name, two, 2), name));
    h := GoesOn(wf, work, name, two, [], after);
  }

  /** Three attempts with nothing ever lost. In the first, step 0 fails and the join runs
      without it. The second runs step 0, and stops. The third finds a record of every
      step, ends at once with nothing failing, and has the wrong output of the join. */
  lemma {:induction false} JoinHistory(wf: Workflow, name: Named) returns (work: Work, h: seq<Attempt>)
    requires IsJoin(wf) && Distinguishable(wf)
    ensures Within(Plan, |wf|) && History(wf, work, Plan, name, h) && |h| == 3 && NothingLost(name, h)
    ensures Closed(wf, UsableAt(name, h, 2).Keys) && EndsWell(h[2])
    ensures h[2].stopped.outputs != SeqEval(wf, Does(work), Plan)
  {
    JoinPlan(wf);
    hide Topological, NoDuplicates, Within, History, RunOf, EvalFirst, NothingLost, UsableAt;
    var mark := TracedAt(wf, 0, 2, {});
    work := MarkedWork(wf, 0, 2, mark, {});
    hide Traced, MarkedWork, Does, Distinguishable, IsJoin;
    var events, stopped := FirstAttempt(wf, work, mark);
    h := JoinGoesWrong(wf, work, mark, name, events, stopped);
    AllClosed(wf, Plan);
    RightAnswer(wf, work, Plan, 0, 2, mark);
  }
}
