/** Retry accounting: which nodes a submission tries, and what the in-flight counts mean. */
module ProtocolRetry {
  import opened Core
  import opened Protocol

  /** An attempt of this submission is out on `n`. */
  function Outstanding(n: Node): Thread -> bool {
    (th: Thread) => NodeOf(th) == n && (th.at.Next? || th.at.Moving? || th.at.Awaiting? || th.at.Landed?)
  }

  /** It was dropped in the middle of an attempt on `n`. */
  function Stranded(n: Node): Thread -> bool {
    (th: Thread) => NodeOf(th) == n && th.at.Cancelled?
  }

  predicate Charged(th: Thread, n: Node) {
    Outstanding(n)(th) || Stranded(n)(th)
  }

  function Charge(ts: seq<Thread>, n: Node): nat {
    Count(ts, Outstanding(n)) + Count(ts, Stranded(n))
  }

  ghost predicate CountsRight(w: World) {
    && (forall n :: Get(w.inFlight, n) == Charge(w.threads, n))
    && (forall n | n in w.inFlight :: w.inFlight[n] > 0)
  }

  // ---- Nodes tried ----

  predicate Distinct(s: seq<Node>) {
    forall i, j | 0 <= i < j < |s| :: s[i] != s[j]
  }

  /** Attempts so far: on different nodes of the mesh, and no more than allowed. */
  predicate Frugal(p: Params, th: Thread) {
    Distinct(th.tried) && |th.tried| <= p.maxAttempts && forall i | 0 <= i < |th.tried| :: th.tried[i] in p.nodes
  }

  predicate AllFrugal(p: Params, w: World) {
    forall t | 0 <= t < |w.threads| :: Frugal(p, w.threads[t])
  }

  lemma {:induction false} DistinctFit(s: seq<Node>, nodes: set<Node>)
    requires Distinct(s) && forall i | 0 <= i < |s| :: s[i] in nodes
    ensures |s| <= |nodes|
  {
    if s != [] {
      var last := |s| - 1;
      assert s[last] in nodes;
      DistinctFit(s[..last], nodes - {s[last]});
    }
  }

  lemma {:induction false} StepFrugal(p: Params, w: World, e: Event)
    requires Enabled(p, w, e) && AllFrugal(p, w)
    ensures AllFrugal(p, Step(p, w, e))
  {
    if Acts(e) {
      assert Frugal(p, w.threads[e.t]);
      hide PlaceAfter;
      assert Frugal(p, ThreadAfter(p, w, e));
    }
  }

  // ---- What is out on each node ----

  lemma {:induction false} ChargeUpdate(w: World, after: World, t: nat, n: Node)
    requires t < |w.threads| && |after.threads| == |w.threads| && after.threads == w.threads[t := after.threads[t]]
    ensures Charge(after.threads, n)
         == Charge(w.threads, n) - (if Charged(w.threads[t], n) then 1 else 0) + if Charged(after.threads[t], n) then 1 else 0
  {
    CountUpdate(w.threads, t, after.threads[t], Outstanding(n));
    CountUpdate(w.threads, t, after.threads[t], Stranded(n));
  }

  /** A submission is charged to a node from its choice until it is counted down. */
  lemma {:induction false} ActCharges(p: Params, w: World, e: Event, n: Node)
    requires Enabled(p, w, e) && Acts(e) && Placed(w.threads[e.t])
    ensures e.Choose? && e.pick.Some? ==> (Charged(ThreadAfter(p, w, e), n) <==> n == e.pick.value)
    ensures e.CountDown? ==> !Charged(ThreadAfter(p, w, e), n)
    ensures !(e.Choose? && e.pick.Some?) && !e.CountDown? ==>
              (Charged(ThreadAfter(p, w, e), n) <==> Charged(w.threads[e.t], n))
    ensures e.Choose? ==> !Charged(w.threads[e.t], n)
    ensures e.CountDown? ==> (Charged(w.threads[e.t], n) <==> n == NodeOf(w.threads[e.t]))
  {}

  lemma {:induction false} FinishedCounts(inFlight: map<Node, nat>, n: Node, m: Node)
    requires forall x | x in inFlight :: inFlight[x] > 0
    ensures Get(Finished(inFlight, n), m)
         == if m == n && Get(inFlight, m) > 0 then Get(inFlight, m) - 1 else Get(inFlight, m)
    ensures forall x | x in Finished(inFlight, n) :: Finished(inFlight, n)[x] > 0
  {}

  lemma {:induction false} ActCounts(p: Params, w: World, e: Event)
    requires Enabled(p, w, e) && Acts(e) && AllPlaced(w) && CountsRight(w)
    ensures CountsRight(Step(p, w, e))
  {
    hide QueuedAfter, StoresAfter, ForgetsAfter, SendsAfter, ExecutingAfter, LocksAfter, LibraryAfter, Learned, Gone;
    var after := Step(p, w, e);
    assert after.threads == w.threads[e.t := after.threads[e.t]] && after.threads[e.t] == ThreadAfter(p, w, e);
    assert Placed(w.threads[e.t]) && after.inFlight == InFlightAfter(p, w, e);
    hide PlaceAfter, ThreadAfter, Charge, Step, Charged, AllPlaced;
    forall n ensures Get(after.inFlight, n) == Charge(after.threads, n) {
      ChargeUpdate(w, after, e.t, n);
      ActCharges(p, w, e, n);
      assert Get(w.inFlight, n) == Charge(w.threads, n);
      if e.CountDown? { FinishedCounts(w.inFlight, NodeOf(w.threads[e.t]), n); }
    }
    if e.CountDown? { FinishedCounts(w.inFlight, NodeOf(w.threads[e.t]), 0); }
  }

  lemma {:induction false} ElseCounts(p: Params, w: World, e: Event)
    requires Enabled(p, w, e) && !Acts(e) && CountsRight(w)
    ensures CountsRight(Step(p, w, e))
  {
    var after := Step(p, w, e);
    assert after.inFlight == w.inFlight;
    assert after.threads == if e.Start? then w.threads + [Thread(e.inputs, Choosing, [])] else w.threads;
    hide Step, Enabled;
    if e.Start? {
      var th := Thread(e.inputs, Choosing, []);
      forall n ensures Get(after.inFlight, n) == Charge(after.threads, n) {
        CountAppend(w.threads, th, Outstanding(n));
        CountAppend(w.threads, th, Stranded(n));
        assert Get(w.inFlight, n) == Charge(w.threads, n);
      }
    }
  }

  lemma {:induction false} StepCounts(p: Params, w: World, e: Event)
    requires Enabled(p, w, e) && AllPlaced(w) && CountsRight(w)
    ensures CountsRight(Step(p, w, e))
  {
    hide CountsRight, AllPlaced, Step;
    if Acts(e) { ActCounts(p, w, e); } else { ElseCounts(p, w, e); }
  }

  lemma {:induction false} ReachesCounts(p: Params, w: World, events: seq<Event>, after: World)
    requires AllPlaced(w) && CountsRight(w) && AllFrugal(p, w) && Reaches(p, w, events, after)
    ensures AllPlaced(after) && CountsRight(after) && AllFrugal(p, after)
    decreases |events|
  {
    if events != [] {
      StepPlaced(p, w, events[0]);
      StepCounts(p, w, events[0]);
      StepFrugal(p, w, events[0]);
      hide AllPlaced, CountsRight, AllFrugal, Step, Enabled;
      ReachesCounts(p, Step(p, w, events[0]), events[1..], after);
    }
  }

  /** Under every interleaving: a node's in-flight count is the number of attempts out on
      it, plus those dropped half way, which are never taken off. Every submission tries
      different nodes, no more than it is allowed and no more than there are. */
  lemma {:induction false} RetryAccounting(p: Params, events: seq<Event>, w: World, n: Node, t: nat)
    requires Reaches(p, Empty, events, w) && t < |w.threads|
    ensures Get(w.inFlight, n) == Count(w.threads, Outstanding(n)) + Count(w.threads, Stranded(n))
    ensures Distinct(w.threads[t].tried) && |w.threads[t].tried| <= p.maxAttempts && |w.threads[t].tried| <= |p.nodes|
  {
    ReachesCounts(p, Empty, events, w);
    assert Frugal(p, w.threads[t]);
    DistinctFit(w.threads[t].tried, p.nodes);
  }

  /** Once every submission is over the map is empty exactly when none was dropped. */
  lemma {:induction false} EmptyAtRest(p: Params, events: seq<Event>, w: World)
    requires Reaches(p, Empty, events, w)
    requires forall t | 0 <= t < |w.threads| :: w.threads[t].at.Done? || w.threads[t].at.Cancelled?
    ensures w.inFlight == map[] <==> forall t | 0 <= t < |w.threads| :: !w.threads[t].at.Cancelled?
  {
    ReachesCounts(p, Empty, events, w);
    forall n ensures n in w.inFlight <==> exists t | 0 <= t < |w.threads| :: Stranded(n)(w.threads[t]) {
      CountZero(w.threads, Outstanding(n));
      CountZero(w.threads, Stranded(n));
      assert Get(w.inFlight, n) == Charge(w.threads, n);
    }
    if t :| 0 <= t < |w.threads| && w.threads[t].at.Cancelled? {
      assert Stranded(NodeOf(w.threads[t]))(w.threads[t]);
      assert NodeOf(w.threads[t]) in w.inFlight;
    }
  }

  // ---- Every submission ends ----

  function StageLeft(stage: Stage): nat {
    match stage
    case Waiting => 8
    case Holding => 7
    case Sending => 6
    case Sent => 5
    case Unlocking => 4
    case Releasing => 3
    case Dropping => 2
    case Failing(_) => 5
    case FailDropping(_) => 4
  }

  function PlaceLeft(th: Thread): nat
    requires Placed(th)
  {
    match th.at
    case Choosing => 1
    case Next(i) => 9 * (|th.inputs| - i) + 5
    case Moving(i, _, stage) => 9 * (|th.inputs| - i - 1) + 5 + StageLeft(stage)
    case Awaiting => 4
    case Landed(_) => 3
    case Deciding(_) => 2
    case Done => 0
    case Cancelled => 0
  }

  /** Steps of one attempt. */
  function AttemptLength(th: Thread): nat {
    9 * |th.inputs| + 12
  }

  /** Steps a submission can still take. */
  function Left(p: Params, th: Thread): nat
    requires Placed(th) && Frugal(p, th)
  {
    (p.maxAttempts - |th.tried|) * AttemptLength(th) + PlaceLeft(th)
  }

  lemma {:induction false} ActSpends(p: Params, w: World, e: Event)
    requires Enabled(p, w, e) && Acts(e) && Placed(w.threads[e.t]) && Frugal(p, w.threads[e.t])
    ensures Placed(ThreadAfter(p, w, e)) && Frugal(p, ThreadAfter(p, w, e))
    ensures Left(p, ThreadAfter(p, w, e)) < Left(p, w.threads[e.t])
  {
    ActPlaced(p, w, e);
    var th := w.threads[e.t];
    if e.Choose? && e.pick.Some? {
      var m := p.maxAttempts - |th.tried|;
      assert m * AttemptLength(th) == (m - 1) * AttemptLength(th) + AttemptLength(th);
    }
  }

  ghost predicate Fit(p: Params, ts: seq<Thread>) {
    forall t | 0 <= t < |ts| :: Placed(ts[t]) && Frugal(p, ts[t])
  }

  ghost function TotalLeft(p: Params, ts: seq<Thread>): nat
    requires Fit(p, ts)
  {
    if ts == [] then 0 else TotalLeft(p, ts[..|ts| - 1]) + Left(p, ts[|ts| - 1])
  }

  lemma {:induction false} TotalUpdate(p: Params, ts: seq<Thread>, t: nat, th: Thread)
    requires Fit(p, ts) && t < |ts| && Placed(th) && Frugal(p, th)
    ensures Fit(p, ts[t := th]) && TotalLeft(p, ts[t := th]) == TotalLeft(p, ts) - Left(p, ts[t]) + Left(p, th)
  {
    var last := |ts| - 1;
    hide Left, Placed, Frugal;
    if t == last {
      assert ts[t := th][..last] == ts[..last];
    } else {
      assert ts[t := th][..last] == ts[..last][t := th];
      TotalUpdate(p, ts[..last], t, th);
    }
  }

  /** Steps of submissions among `events`. */
  function Moves(events: seq<Event>): nat {
    if events == [] then 0 else (if Acts(events[0]) then 1 else 0) + Moves(events[1..])
  }

  predicate NoStarts(events: seq<Event>) {
    forall i | 0 <= i < |events| :: !events[i].Start?
  }

  /** However the steps interleave, the submissions there are take no more of them than
      this: nobody retries for ever. */
  lemma {:induction false} SubmissionsEnd(p: Params, w: World, events: seq<Event>, after: World)
    requires Fit(p, w.threads) && NoStarts(events) && Reaches(p, w, events, after)
    ensures Fit(p, after.threads) && Moves(events) + TotalLeft(p, after.threads) <= TotalLeft(p, w.threads)
    decreases |events|
  {
    if events != [] {
      var e := events[0];
      var next := Step(p, w, e);
      assert !e.Start?;
      if Acts(e) {
        ActSpends(p, w, e);
        TotalUpdate(p, w.threads, e.t, ThreadAfter(p, w, e));
      }
      assert next.threads == if Acts(e) then w.threads[e.t := ThreadAfter(p, w, e)] else w.threads;
      hide Fit, Step, Enabled, TotalLeft, Left, ThreadAfter;
      SubmissionsEnd(p, next, events[1..], after);
    }
  }
}
