/** A named run submitted again and again: each attempt resumes from what the journal has
    of the attempts before it and the mesh still holds. */
module FlowHistory {
  import opened Core
  import opened Workflows
  import opened Ancestry
  import opened Flows
  import opened FlowInvariant
  import opened FlowRuns
  import opened FlowTheorems
  import opened FlowIsolation
  import opened FlowLaws
  import opened FlowResume
  import opened FlowRunner
  import opened Journals
  import Caches

  // ---- The same workflow, submitted again ----

  /** What work produces: a function of the work, not of the submission that asks for it. */
  type Work = Caches.WorkKey -> Option<DataId>

  function Does(work: Work): Task -> Option<DataId> {
    (t: Task) => work(Caches.KeyOf(t))
  }

  /** The same graph, whatever the tasks. */
  predicate SameShape(wf: Workflow, other: Workflow) {
    |other| == |wf| && forall x | 0 <= x < |wf| :: other[x].dependsOn == wf[x].dependsOn
  }

  /** The same steps, with tasks that are the same work under fresh ids. */
  predicate Again(wf: Workflow, again: Workflow) {
    && SameShape(wf, again)
    && (forall x | 0 <= x < |wf| :: Caches.KeyOf(again[x].task) == Caches.KeyOf(wf[x].task))
  }

  lemma {:induction false} SameDeps(wf: Workflow, other: Workflow, x: nat)
    requires SameShape(wf, other) && x < |wf|
    ensures Deps(other, x) == Deps(wf, x)
  {}

  lemma {:induction false} SameGraph(wf: Workflow, other: Workflow, order: seq<nat>, s: set<nat>)
    requires SameShape(wf, other)
    ensures Topological(wf, order) ==> Topological(other, order)
    ensures NoDuplicates(wf) ==> NoDuplicates(other)
    ensures Closed(wf, s) <==> Closed(other, s)
  {
    forall x: nat | x < |wf| ensures Deps(other, x) == Deps(wf, x) { SameDeps(wf, other, x); }
  }

  lemma {:induction false} SameAncestry(wf: Workflow, other: Workflow, a: nat, x: nat)
    requires SameShape(wf, other) && Ancestor(wf, a, x)
    ensures Ancestor(other, a, x)
  {
    var p :| PathFromTo(wf, p, a, x);
    forall i | 0 <= i < |p| - 1 ensures p[i] in Deps(other, p[i + 1]) { SameDeps(wf, other, p[i + 1]); }
    assert PathFromTo(other, p, a, x);
  }

  lemma {:induction false} SameChains(wf: Workflow, other: Workflow)
    requires SameShape(wf, other) && Chained(wf)
    ensures Chained(other)
  {
    forall j: nat | j < |other| ensures ChainedAt(other, j) {
      SameDeps(wf, other, j);
      assert ChainedAt(wf, j);
      forall a, b | a in Deps(other, j) && b in Deps(other, j) ensures Comparable(other, a, b) {
        assert Comparable(wf, a, b);
        if Ancestor(wf, a, b) { SameAncestry(wf, other, a, b); }
        if Ancestor(wf, b, a) { SameAncestry(wf, other, b, a); }
      }
    }
  }

  lemma {:induction false} SameDirect(wf: Workflow, other: Workflow)
    requires SameShape(wf, other) && DirectlyChained(wf)
    ensures DirectlyChained(other)
  {
    forall x: nat | x < |wf| ensures Deps(other, x) == Deps(wf, x) { SameDeps(wf, other, x); }
    forall j: nat | j < |other| ensures DirectAt(other, j) { assert DirectAt(wf, j); }
  }

  lemma {:induction false} SameTask(wf: Workflow, again: Workflow, x: nat, outputs: Outputs)
    requires Again(wf, again) && x < |wf|
    ensures Caches.KeyOf(TaskFor(again, x, outputs)) == Caches.KeyOf(TaskFor(wf, x, outputs))
  {}

  lemma {:induction false} SameEval(wf: Workflow, again: Workflow, work: Work, order: seq<nat>, n: nat)
    requires Again(wf, again) && Within(order, |wf|) && n <= |order|
    ensures EvalFirst(again, Does(work), order, n) == EvalFirst(wf, Does(work), order, n)
  {
    if n > 0 {
      SameEval(wf, again, work, order, n - 1);
      SameTask(wf, again, order[n - 1], EvalFirst(wf, Does(work), order, n - 1));
    }
  }

  // ---- Attempts, and the journal they leave ----

  /** One submission: as it was submitted, what the mesh still held then, what came back,
      where it stopped. */
  datatype Attempt = Attempt(wf: Workflow, held: set<DataId>, events: seq<Event>, stopped: State)

  /** The name a run is submitted under, and the workflow it is for. */
  datatype Named = Named(run: string, fingerprint: string)

  /** A finished step is recorded when it succeeded and left an output. */
  function RecordOf(name: Named, e: Event): seq<Record> {
    if e.result.success && e.result.outputId.Some?
    then [Record(name.run, name.fingerprint, e.step, e.result.outputId.value)]
    else []
  }

  function Logged(name: Named, events: seq<Event>): seq<Record> {
    if events == [] then []
    else Logged(name, events[..|events| - 1]) + RecordOf(name, events[|events| - 1])
  }

  /** The journal when attempt `n` begins. */
  function JournalAt(name: Named, h: seq<Attempt>, n: nat): seq<Record>
    requires n <= |h|
  {
    if n == 0 then [] else JournalAt(name, h, n - 1) + Logged(name, h[n - 1].events)
  }

  /** What the journal has of a run, by step. */
  function Found(records: seq<Record>, name: Named): Outputs {
    match CompletedIn(records, name.run, name.fingerprint)
    case Ok(m) => map x | x in m :: m[x].outputId
    case Err(_) => map[]
  }

  function UsableAt(name: Named, h: seq<Attempt>, n: nat): Outputs
    requires n < |h|
  {
    StillHeld(Found(JournalAt(name, h, n), name), h[n].held)
  }

  /** Every attempt is a run of the workflow from what it found. */
  ghost predicate History(wf: Workflow, work: Work, order: seq<nat>, name: Named, h: seq<Attempt>) {
    forall n | 0 <= n < |h| :: IsAttempt(wf, work, order, name, h, n)
  }

  /** Attempt `n` is one. */
  ghost predicate IsAttempt(wf: Workflow, work: Work, order: seq<nat>, name: Named, h: seq<Attempt>, n: nat)
    requires n < |h|
  {
    && Again(wf, h[n].wf)
    && RunOf(h[n].wf, Does(work), order, UsableAt(name, h, n), h[n].events, h[n].stopped)
  }

  /** What each attempt found comes with everything it depends on. */
  ghost predicate Resumable(wf: Workflow, name: Named, h: seq<Attempt>) {
    forall n | 0 <= n < |h| :: Closed(wf, UsableAt(name, h, n).Keys)
  }

  // ---- One attempt more ----

  /** What another attempt would find. */
  function NextUsable(name: Named, h: seq<Attempt>, held: set<DataId>): Outputs {
    StillHeld(Found(JournalAt(name, h, |h|), name), held)
  }

  /** The journal depends on what came before alone. */
  lemma {:induction false} JournalStays(name: Named, g: seq<Attempt>, h: seq<Attempt>, n: nat)
    requires n <= |g| && n <= |h| && g[..n] == h[..n]
    ensures JournalAt(name, g, n) == JournalAt(name, h, n)
  {
    if n > 0 {
      assert g[..n - 1] == g[..n][..n - 1] == h[..n][..n - 1] == h[..n - 1];
      assert g[n - 1] == g[..n][n - 1] == h[..n][n - 1] == h[n - 1];
      JournalStays(name, g, h, n - 1);
    }
  }

  lemma {:induction false} UsableStays(name: Named, h: seq<Attempt>, a: Attempt, n: nat)
    requires n <= |h|
    ensures UsableAt(name, h + [a], n) == if n < |h| then UsableAt(name, h, n) else NextUsable(name, h, a.held)
  {
    assert (h + [a])[..n] == h[..n];
    JournalStays(name, h, h + [a], n);
    hide JournalAt, Found;
  }

  lemma {:induction false} OneMore(wf: Workflow, work: Work, order: seq<nat>, name: Named, h: seq<Attempt>, a: Attempt)
    requires History(wf, work, order, name, h) && Again(wf, a.wf)
    requires RunOf(a.wf, Does(work), order, NextUsable(name, h, a.held), a.events, a.stopped)
    ensures History(wf, work, order, name, h + [a])
    ensures Resumable(wf, name, h) && Closed(wf, NextUsable(name, h, a.held).Keys) ==> Resumable(wf, name, h + [a])
  {
    hide Again, RunOf, UsableAt, NextUsable, Closed, Does;
    forall n | 0 <= n < |h + [a]| ensures IsAttempt(wf, work, order, name, h + [a], n) {
      UsableStays(name, h, a, n);
      if n < |h| { assert IsAttempt(wf, work, order, name, h, n); }
    }
    forall n | 0 <= n < |h + [a]|
      ensures UsableAt(name, h + [a], n) == if n < |h| then UsableAt(name, h, n) else NextUsable(name, h, a.held)
    {
      UsableStays(name, h, a, n);
    }
  }

  // ---- Every record comes from somewhere ----

  predicate CameBack(events: seq<Event>, x: nat, id: DataId) {
    Event(x, TaskResult(true, Some(id))) in events
  }

  predicate Of(name: Named, r: Record) {
    r.run == name.run && r.fingerprint == name.fingerprint
  }

  lemma {:induction false} LoggedCame(name: Named, events: seq<Event>, r: Record)
    ensures r in Logged(name, events) <==> Of(name, r) && CameBack(events, r.step, r.outputId)
    decreases |events|
  {
    if events != [] {
      var init, e := events[..|events| - 1], events[|events| - 1];
      assert events == init + [e];
      LoggedCame(name, init, r);
      assert r in RecordOf(name, e) <==> Of(name, r) && e == Event(r.step, TaskResult(true, Some(r.outputId)));
    }
  }

  lemma {:induction false} JournalCame(name: Named, h: seq<Attempt>, n: nat, r: Record)
    requires n <= |h|
    ensures r in JournalAt(name, h, n)
       <==> Of(name, r) && exists j | 0 <= j < n :: CameBack(h[j].events, r.step, r.outputId)
    decreases n
  {
    if n > 0 {
      JournalCame(name, h, n - 1, r);
      LoggedCame(name, h[n - 1].events, r);
      hide CameBack;
    }
  }

  lemma {:induction false} LatestIn(records: seq<Record>, run: string, step: nat)
    ensures var r := Latest(records, run, step);
            if r.Some? then r.value in records && r.value.run == run && r.value.step == step
            else forall s | s in records :: s.run != run || s.step != step
    decreases |records|
  {
    if records != [] {
      var last := |records| - 1;
      assert records == records[..last] + [records[last]];
      LatestIn(records[..last], run, step);
    }
  }

  lemma {:induction false} JournalAccepted(name: Named, h: seq<Attempt>, n: nat)
    requires n <= |h|
    ensures SameWorkflow(JournalAt(name, h, n), name.run, name.fingerprint)
  {
    forall r | r in JournalAt(name, h, n) && r.run == name.run ensures r.fingerprint == name.fingerprint {
      JournalCame(name, h, n, r);
    }
  }

  /** What is found for a step is its latest record. */
  lemma {:induction false} FoundLatest(name: Named, h: seq<Attempt>, n: nat, x: nat)
    requires n <= |h|
    ensures var records := JournalAt(name, h, n);
            && (x in Found(records, name) <==> Latest(records, name.run, x).Some?)
            && (x in Found(records, name) ==> Latest(records, name.run, x).Some?)
            && (Latest(records, name.run, x).Some? ==> x in Found(records, name))
    ensures var records := JournalAt(name, h, n);
            x in Found(records, name) && Latest(records, name.run, x).Some? ==>
              Found(records, name)[x] == Latest(records, name.run, x).value.outputId
  {
    var records := JournalAt(name, h, n);
    JournalAccepted(name, h, n);
    CompletedIsLatest(records, name.run, name.fingerprint);
    var m := CompletedIn(records, name.run, name.fingerprint).value;
    hide CompletedIn, JournalAt, Latest, SameWorkflow;
    assert Lookup(m, x) == Latest(records, name.run, x);
  }

  /** Whatever an attempt finds, a step of an earlier one left. */
  lemma {:induction false} UsableCame(name: Named, h: seq<Attempt>, n: nat, x: nat) returns (j: nat)
    requires n < |h| && x in UsableAt(name, h, n)
    ensures j < n && CameBack(h[j].events, x, UsableAt(name, h, n)[x])
  {
    var records := JournalAt(name, h, n);
    FoundLatest(name, h, n, x);
    LatestIn(records, name.run, x);
    JournalCame(name, h, n, Latest(records, name.run, x).value);
    hide Latest, JournalAt, Found, CameBack;
    j :| 0 <= j < n && CameBack(h[j].events, x, UsableAt(name, h, n)[x]);
  }

  // ---- On one path, every record is right ----

  /** An event of a run is what it recorded. */
  lemma {:induction false} CameRecorded(wf: Workflow, out: Task -> Option<DataId>, order: seq<nat>, usable: Outputs,
                                        events: seq<Event>, after: State, x: nat, id: DataId)
    requires RunOf(wf, out, order, usable, events, after) && Closed(wf, Done(order, usable)) && CameBack(events, x, id)
    ensures x in after.results && after.results[x] == TaskResult(true, Some(id))
  {
    hide Inv, Runs, Start, Launch;
    Launched(wf, order, usable);
    RunRecords(wf, out, Launch(wf, Start(wf, order, usable).value), {}, events, after);
  }

  lemma {:induction false} ChainedRecord(wf: Workflow, out: Task -> Option<DataId>, order: seq<nat>, usable: Outputs,
                                         events: seq<Event>, after: State, x: nat, id: DataId)
    requires NoDuplicates(wf) && Chained(wf) && RunOf(wf, out, order, usable, events, after)
    requires Sound(wf, out, order, usable) && CameBack(events, x, id)
    ensures x in SeqEval(wf, out, order) && SeqEval(wf, out, order)[x] == id
  {
    RunHasOrder(wf, out, order, usable, events, after);
    DoneIsUsable(wf, order, usable);
    hide RunOf, CameBack, Chained, NoDuplicates, Topological, EvalFirst, SameAt;
    CameRecorded(wf, out, order, usable, events, after, x, id);
    ChainedStops(wf, out);
    forall a | Failed(after, a) ensures !Ancestor(wf, a, x) {
      assert x in Submitted(after);
    }
    CleanRecordIsSound(wf, out, order, usable, events, after, x, id);
  }

  lemma {:induction false} AttemptRuns(wf: Workflow, work: Work, order: seq<nat>, name: Named, h: seq<Attempt>, n: nat)
    requires Topological(wf, order) && History(wf, work, order, name, h) && n < |h|
    ensures Again(wf, h[n].wf) && Topological(h[n].wf, order) && Within(order, |wf|) && Within(order, |h[n].wf|)
    ensures RunOf(h[n].wf, Does(work), order, UsableAt(name, h, n), h[n].events, h[n].stopped)
    ensures SeqEval(h[n].wf, Does(work), order) == SeqEval(wf, Does(work), order)
  {
    hide RunOf, EvalFirst, UsableAt;
    assert IsAttempt(wf, work, order, name, h, n);
    SameGraph(wf, h[n].wf, order, {});
    SameEval(wf, h[n].wf, work, order, |order|);
  }

  lemma {:induction false} AttemptOf(wf: Workflow, work: Work, order: seq<nat>, name: Named, h: seq<Attempt>, n: nat)
    requires Topological(wf, order) && History(wf, work, order, name, h) && Resumable(wf, name, h) && n < |h|
    ensures Again(wf, h[n].wf) && Topological(h[n].wf, order) && Within(order, |wf|) && Within(order, |h[n].wf|)
    ensures RunOf(h[n].wf, Does(work), order, UsableAt(name, h, n), h[n].events, h[n].stopped)
    ensures Closed(h[n].wf, UsableAt(name, h, n).Keys)
    ensures SeqEval(h[n].wf, Does(work), order) == SeqEval(wf, Does(work), order)
  {
    hide RunOf, EvalFirst, UsableAt, History, Topological, Within;
    AttemptRuns(wf, work, order, name, h, n);
    SameGraph(wf, h[n].wf, order, UsableAt(name, h, n).Keys);
  }

  lemma {:induction false} HistorySound(wf: Workflow, work: Work, order: seq<nat>, name: Named, h: seq<Attempt>, n: nat)
    requires NoDuplicates(wf) && Topological(wf, order) && Chained(wf)
    requires History(wf, work, order, name, h) && Resumable(wf, name, h) && n < |h|
    ensures Within(order, |h[n].wf|) && Sound(h[n].wf, Does(work), order, UsableAt(name, h, n))
    decreases n, 0
  {
    AttemptOf(wf, work, order, name, h, n);
    hide Topological, History, Resumable, RunOf, EvalFirst, UsableAt, Chained, NoDuplicates, Again, Closed, CameBack, Within;
    var usable := UsableAt(name, h, n);
    forall x | x in usable ensures SameAt(usable, SeqEval(h[n].wf, Does(work), order), x) {
      var j := UsableCame(name, h, n, x);
      RightRecord(wf, work, order, name, h, j, x, usable[x]);
    }
  }

  /** A record of attempt `j` carries the output of the sequential evaluation. */
  lemma {:induction false} RightRecord(wf: Workflow, work: Work, order: seq<nat>, name: Named, h: seq<Attempt>,
                                       j: nat, x: nat, id: DataId)
    requires NoDuplicates(wf) && Topological(wf, order) && Chained(wf) && Within(order, |wf|)
    requires History(wf, work, order, name, h) && Resumable(wf, name, h) && j < |h| && CameBack(h[j].events, x, id)
    ensures x in SeqEval(wf, Does(work), order) && SeqEval(wf, Does(work), order)[x] == id
    decreases j, 1
  {
    hide Topological, History, Resumable, RunOf, EvalFirst, UsableAt, Chained, NoDuplicates;
    hide SameShape, Closed, CameBack, Within, Sound;
    AttemptOf(wf, work, order, name, h, j);
    HistorySound(wf, work, order, name, h, j);
    SameGraph(wf, h[j].wf, order, {});
    SameChains(wf, h[j].wf);
    ChainedRecord(h[j].wf, Does(work), order, UsableAt(name, h, j), h[j].events, h[j].stopped, x, id);
  }

  /** An attempt that runs to its end without a failure. */
  predicate EndsWell(a: Attempt) {
    Finished(a.stopped) && AllSucceed(a.events)
  }

  /** Resuming preserves meaning: an attempt that ends well, having resumed a closed set, has
      the outputs of a run that was never interrupted, whatever the attempts before it
      resumed, whatever failed in them and wherever they stopped. */
  ghost predicate Preserves(wf: Workflow, work: Work) {
    forall order, name, h: seq<Attempt>, n | Topological(wf, order) && 0 <= n < |h| ::
      History(wf, work, order, name, h) && Closed(wf, UsableAt(name, h, n).Keys) && EndsWell(h[n])
      ==> h[n].stopped.outputs == SeqEval(wf, Does(work), order)
  }

  /** The same of the histories in which every attempt, and not only the one that ends,
      resumed a closed set. */
  ghost predicate PreservesClosed(wf: Workflow, work: Work) {
    forall order, name, h: seq<Attempt>, n | Topological(wf, order) && 0 <= n < |h| ::
      History(wf, work, order, name, h) && Resumable(wf, name, h) && EndsWell(h[n])
      ==> h[n].stopped.outputs == SeqEval(wf, Does(work), order)
  }

  /** Where the dependencies of every step lie on one path, a history of closed attempts
      preserves meaning for every kind of work, and each step is resumed or run, never both. */
  lemma {:induction false} ResumePreserves(wf: Workflow, work: Work, order: seq<nat>, name: Named, h: seq<Attempt>,
                                           n: nat)
    requires NoDuplicates(wf) && Topological(wf, order) && Chained(wf) && Within(order, |wf|)
    requires History(wf, work, order, name, h) && Resumable(wf, name, h) && n < |h| && EndsWell(h[n])
    ensures h[n].stopped.outputs == SeqEval(wf, Does(work), order)
    ensures Elems(h[n].stopped.resumed) == UsableAt(name, h, n).Keys
    ensures Elems(h[n].stopped.resumed) !! h[n].stopped.results.Keys
    ensures Elems(h[n].stopped.resumed) + h[n].stopped.results.Keys == Below(|wf|)
  {
    assert IsAttempt(wf, work, order, name, h, n);
    assert |h[n].wf| == |wf|;
    hide Topological, History, Resumable, RunOf, EvalFirst, UsableAt, Chained, NoDuplicates, Again, Closed, Within, Sound;
    AttemptOf(wf, work, order, name, h, n);
    HistorySound(wf, work, order, name, h, n);
    SameGraph(wf, h[n].wf, order, {});
    SoundRunIsRight(h[n].wf, Does(work), order, UsableAt(name, h, n), h[n].events, h[n].stopped);
  }

  lemma {:induction false} ChainedPreserves(wf: Workflow, work: Work)
    requires NoDuplicates(wf) && Chained(wf)
    ensures PreservesClosed(wf, work)
  {
    hide History, Resumable, EvalFirst, Chained, NoDuplicates, EndsWell;
    forall order, name, h: seq<Attempt>, n |
      Topological(wf, order) && 0 <= n < |h| && History(wf, work, order, name, h) && Resumable(wf, name, h) && EndsWell(h[n])
      ensures h[n].stopped.outputs == SeqEval(wf, Does(work), order)
    {
      ResumePreserves(wf, work, order, name, h, n);
    }
  }

  // ---- One interruption ----

  lemma {:induction false} FirstFindsNothing(name: Named, h: seq<Attempt>)
    requires h != []
    ensures UsableAt(name, h, 0) == map[]
  {}

  /** After a single attempt it does for every workflow: what that attempt recorded, taken
      closed under dependencies, has no failure above it. */
  lemma {:induction false} OneInterruption(wf: Workflow, work: Work, order: seq<nat>, name: Named, h: seq<Attempt>)
    requires NoDuplicates(wf) && Topological(wf, order) && Within(order, |wf|) && |h| == 2
    requires History(wf, work, order, name, h) && Resumable(wf, name, h) && EndsWell(h[1])
    ensures h[1].stopped.outputs == SeqEval(wf, Does(work), order)
  {
    hide Topological, History, Resumable, RunOf, EvalFirst, UsableAt, NoDuplicates, SameShape, Within, Sound, Closed, Does;
    AttemptOf(wf, work, order, name, h, 1);
    SameGraph(wf, h[1].wf, order, {});
    SecondIsSound(wf, work, order, name, h);
    SoundRunIsRight(h[1].wf, Does(work), order, UsableAt(name, h, 1), h[1].events, h[1].stopped);
  }

  lemma {:induction false} SecondFinds(name: Named, h: seq<Attempt>)
    requires |h| == 2
    ensures var usable := UsableAt(name, h, 1); forall y | y in usable :: CameBack(h[0].events, y, usable[y])
  {
    hide UsableAt, CameBack;
    var usable := UsableAt(name, h, 1);
    forall y | y in usable ensures CameBack(h[0].events, y, usable[y]) {
      var j := UsableCame(name, h, 1, y);
      assert j == 0;
    }
  }

  lemma {:induction false} SoundCarries(wf: Workflow, again: Workflow, out: Task -> Option<DataId>,
                                        order: seq<nat>, usable: Outputs)
    requires Within(order, |wf|) && Within(order, |again|) && SeqEval(wf, out, order) == SeqEval(again, out, order)
    requires Sound(wf, out, order, usable) && Closed(again, usable.Keys)
    ensures Sound(again, out, order, usable)
  {
    hide EvalFirst;
  }

  lemma {:induction false} SecondIsSound(wf: Workflow, work: Work, order: seq<nat>, name: Named, h: seq<Attempt>)
    requires Topological(wf, order) && |h| == 2 && History(wf, work, order, name, h) && Resumable(wf, name, h)
    ensures Within(order, |h[1].wf|) && Sound(h[1].wf, Does(work), order, UsableAt(name, h, 1))
  {
    hide Topological, History, Resumable, RunOf, SeqEval, UsableAt, SameShape, Within, CameBack, Closed, Does, Sound;
    FirstFindsNothing(name, h);
    SecondFinds(name, h);
    AttemptOf(wf, work, order, name, h, 0);
    AttemptOf(wf, work, order, name, h, 1);
    SameGraph(wf, h[1].wf, order, UsableAt(name, h, 1).Keys);
    SameGraph(wf, h[0].wf, order, UsableAt(name, h, 1).Keys);
    OneAttemptIsSound(h[0].wf, Does(work), order, h[0].events, h[0].stopped, UsableAt(name, h, 1));
    SoundCarries(h[0].wf, h[1].wf, Does(work), order, UsableAt(name, h, 1));
  }

  lemma {:induction false} OneAttemptIsSound(wf: Workflow, out: Task -> Option<DataId>, order: seq<nat>,
                                             events: seq<Event>, stopped: State, usable: Outputs)
    requires RunOf(wf, out, order, map[], events, stopped) && Within(order, |wf|) && Closed(wf, usable.Keys)
    requires forall x | x in usable :: CameBack(events, x, usable[x])
    ensures Sound(wf, out, order, usable)
  {
    RunHasOrder(wf, out, order, map[], events, stopped);
    assert Done(order, map[]) == {};
    hide RunOf, CameBack, EvalFirst, Topological, CleanRecord;
    assert Closed(wf, Done(order, map[]));
    forall y | y in usable ensures y in stopped.results && stopped.results[y] == TaskResult(true, Some(usable[y])) {
      CameRecorded(wf, out, order, map[], events, stopped, y, usable[y]);
    }
    forall x | x in usable ensures SameAt(usable, SeqEval(wf, out, order), x) {
      OneAttemptIsClean(wf, order, stopped, usable, x);
      CleanRecordIsSound(wf, out, order, map[], events, stopped, x, usable[x]);
    }
  }
}
