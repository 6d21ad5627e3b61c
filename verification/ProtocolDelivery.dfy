/** Delivery order: within one connection no task is handled before its inputs are there. */
module ProtocolDelivery {
  import opened Core
  import opened Protocol

  /** On the node, or ahead of whatever is sent to it from now on. */
  predicate Available(w: World, n: Node, d: DataId) {
    d in Stored(w, n) || Data(d) in Queue(w, n)
  }

  /** How many of its inputs a submission has seen to on its current node. */
  function Covered(th: Thread): nat {
    match th.at
    case Next(i) => i
    case Moving(i, _, stage) => if stage.Sent? || stage.Unlocking? || stage.Releasing? || stage.Dropping? then i + 1 else i
    case _ => 0
  }

  predicate Prepared(w: World, th: Thread) {
    forall j | 0 <= j < Covered(th) && j < |th.inputs| :: Available(w, NodeOf(th), th.inputs[j])
  }

  /** An output credited to a node is in its store. */
  predicate Honest(w: World, th: Thread) {
    (th.at.Landed? || th.at.Deciding?) && th.at.outcome.Success? && th.at.outcome.output.Some? ==>
      th.at.outcome.output.value in Stored(w, th.at.outcome.from)
  }

  predicate ThreadsReady(w: World) {
    forall t | 0 <= t < |w.threads| :: Prepared(w, w.threads[t]) && Honest(w, w.threads[t])
  }

  predicate CatalogSound(w: World) {
    forall k | k in w.catalog :: Available(w, k.node, k.data)
  }

  /** The assignment at position `i` has every input in the store or ahead of it. */
  predicate InOrder(w: World, n: Node, i: nat)
    requires i < |Queue(w, n)|
  {
    match Queue(w, n)[i]
    case Data(_) => true
    case Assignment(t, inputs) =>
      && t < |w.threads| && w.threads[t].inputs == inputs
      && forall j | 0 <= j < |inputs| :: inputs[j] in Stored(w, n) || Data(inputs[j]) in Queue(w, n)[..i]
  }

  ghost predicate QueuesInOrder(w: World) {
    forall n, i: nat | i < |Queue(w, n)| :: InOrder(w, n, i)
  }

  predicate Supplied(w: World, t: nat, n: Node) {
    t < |w.threads| && forall j | 0 <= j < |w.threads[t].inputs| :: w.threads[t].inputs[j] in Stored(w, n)
  }

  predicate ResultsReal(w: World) {
    && (forall x | x in w.executing :: Supplied(w, x.0, x.1))
    && (forall x | x in w.results && x.2.Some? :: x.2.value in Stored(w, x.1))
  }

  ghost predicate DeliveryInv(w: World) {
    AllPlaced(w) && ThreadsReady(w) && CatalogSound(w) && QueuesInOrder(w) && ResultsReal(w)
  }

  // ---- What only grows ----

  lemma {:induction false} StoredStays(p: Params, w: World, e: Event, n: Node)
    requires Enabled(p, w, e)
    ensures Stored(w, n) <= Stored(Step(p, w, e), n)
  {}

  lemma {:induction false} AvailableStays(p: Params, w: World, e: Event, n: Node, d: DataId)
    requires Enabled(p, w, e) && Available(w, n, d)
    ensures Available(Step(p, w, e), n, d)
  {
    StoredStays(p, w, e, n);
    var q := Queue(w, n);
    if Data(d) in q {
      var i :| 0 <= i < |q| && q[i] == Data(d);
      if e == Handle(n) {
        if i > 0 { assert q[1..][i - 1] == Data(d); }
      } else {
        assert Queue(Step(p, w, e), n)[i] == Data(d);
      }
    }
  }

  /** Submissions come and go on; what they asked for does not change. */
  lemma {:induction false} InputsStay(p: Params, w: World, e: Event, t: nat)
    requires Enabled(p, w, e) && t < |w.threads|
    ensures t < |Step(p, w, e).threads| && Step(p, w, e).threads[t].inputs == w.threads[t].inputs
  {}

  // ---- Submissions and the catalog ----

  /** A step covers one more input only when it is available. */
  lemma {:induction false} ActCovers(p: Params, w: World, e: Event, j: nat)
    requires Enabled(p, w, e) && Acts(e) && Placed(w.threads[e.t]) && Prepared(w, w.threads[e.t]) && CatalogSound(w)
    requires j < Covered(ThreadAfter(p, w, e)) && j < |w.threads[e.t].inputs|
    ensures Available(Step(p, w, e), NodeOf(ThreadAfter(p, w, e)), w.threads[e.t].inputs[j])
  {
    var th, next := w.threads[e.t], ThreadAfter(p, w, e);
    assert NodeOf(next) == NodeOf(th);
    if j < Covered(th) {
      AvailableStays(p, w, e, NodeOf(th), th.inputs[j]);
    } else if e.Skip? {
      assert KeyOf(th) in w.catalog;
      AvailableStays(p, w, e, NodeOf(th), th.inputs[j]);
    } else {
      assert e.SendWhole?;
      var after := Queue(Step(p, w, e), NodeOf(th));
      assert after[|after| - 1] == Data(th.inputs[j]);
    }
  }

  lemma {:induction false} ActHonest(p: Params, w: World, e: Event)
    requires Enabled(p, w, e) && Acts(e) && Honest(w, w.threads[e.t]) && ResultsReal(w)
    ensures Honest(w, ThreadAfter(p, w, e))
  {
    hide Supplied;
    if e.Answer? {
      var x := (e.t, e.from, e.output);
      assert x in w.results;
    }
  }

  lemma {:induction false} HonestStays(p: Params, w: World, e: Event, th: Thread)
    requires Enabled(p, w, e) && Honest(w, th)
    ensures Honest(Step(p, w, e), th)
  {
    if (th.at.Landed? || th.at.Deciding?) && th.at.outcome.Success? { StoredStays(p, w, e, th.at.outcome.from); }
    hide Step;
  }

  lemma {:induction false} PreparedStays(p: Params, w: World, e: Event, th: Thread)
    requires Enabled(p, w, e) && Prepared(w, th)
    ensures Prepared(Step(p, w, e), th)
  {
    forall j | 0 <= j < Covered(th) && j < |th.inputs| ensures Available(Step(p, w, e), NodeOf(th), th.inputs[j]) {
      AvailableStays(p, w, e, NodeOf(th), th.inputs[j]);
    }
  }

  lemma {:induction false} StepThreads(p: Params, w: World, e: Event)
    requires Enabled(p, w, e) && DeliveryInv(w)
    ensures ThreadsReady(Step(p, w, e))
  {
    var after := Step(p, w, e);
    forall t | 0 <= t < |after.threads| ensures Prepared(after, after.threads[t]) && Honest(after, after.threads[t]) {
      if Acts(e) && t == e.t {
        assert after.threads[t] == ThreadAfter(p, w, e);
        ActHonest(p, w, e);
        HonestStays(p, w, e, ThreadAfter(p, w, e));
        forall j | 0 <= j < Covered(after.threads[t]) && j < |after.threads[t].inputs|
          ensures Available(after, NodeOf(after.threads[t]), after.threads[t].inputs[j])
        {
          ActCovers(p, w, e, j);
        }
      } else if t < |w.threads| {
        assert after.threads[t] == w.threads[t];
        HonestStays(p, w, e, w.threads[t]);
        PreparedStays(p, w, e, w.threads[t]);
      }
    }
  }

  /** The catalog learns of nothing that is not there. */
  lemma {:induction false} LearnedReal(p: Params, w: World, e: Event, k: Key)
    requires Enabled(p, w, e) && AllPlaced(w) && ThreadsReady(w) && k in Learned(p, w, e)
    ensures Available(w, k.node, k.data)
  {
    if e.Record? {
      var th := w.threads[e.t];
      assert Placed(th) && Prepared(w, th) && th.at.i < Covered(th);
    } else if e.Decide? {
      assert Honest(w, w.threads[e.t]);
    }
  }

  lemma {:induction false} StepCatalog(p: Params, w: World, e: Event)
    requires Enabled(p, w, e) && DeliveryInv(w)
    ensures CatalogSound(Step(p, w, e))
  {
    var after := Step(p, w, e);
    forall k | k in after.catalog ensures Available(after, k.node, k.data) {
      if k in Learned(p, w, e) { LearnedReal(p, w, e, k); }
      AvailableStays(p, w, e, k.node, k.data);
    }
  }

  // ---- The connection ----

  lemma {:induction false} PostInOrder(p: Params, w: World, e: Event, n: Node, i: nat)
    requires Enabled(p, w, e) && DeliveryInv(w) && !(e.Handle? && e.node == n)
    requires i < |Queue(Step(p, w, e), n)|
    ensures InOrder(Step(p, w, e), n, i)
  {
    var after := Step(p, w, e);
    var q := Queue(w, n);
    StoredStays(p, w, e, n);
    if i < |q| {
      assert InOrder(w, n, i);
      assert Queue(after, n)[..i] == q[..i];
      if q[i].Assignment? { InputsStay(p, w, e, q[i].thread); }
    } else if e.Assign? {
      var th := w.threads[e.t];
      assert Queue(after, n)[..i] == q;
      assert Prepared(w, th) && Placed(th);
      forall j | 0 <= j < |th.inputs| ensures th.inputs[j] in Stored(after, n) || Data(th.inputs[j]) in q {
        assert Available(w, n, th.inputs[j]);
      }
    }
  }

  lemma {:induction false} HandleInOrder(p: Params, w: World, n: Node, i: nat)
    requires Enabled(p, w, Handle(n)) && DeliveryInv(w) && i < |Queue(Step(p, w, Handle(n)), n)|
    ensures InOrder(Step(p, w, Handle(n)), n, i)
  {
    var q, after := Queue(w, n), Step(p, w, Handle(n));
    StoredStays(p, w, Handle(n), n);
    assert Queue(after, n) == q[1..];
    assert InOrder(w, n, i + 1);
    match q[i + 1] {
      case Data(_) =>
      case Assignment(t, inputs) =>
        forall j | 0 <= j < |inputs| ensures inputs[j] in Stored(after, n) || Data(inputs[j]) in q[1..][..i] {
          if inputs[j] !in Stored(w, n) {
            var m :| 0 <= m < i + 1 && q[..i + 1][m] == Data(inputs[j]);
            if m > 0 { assert q[1..][..i][m - 1] == Data(inputs[j]); }
          }
        }
    }
  }

  lemma {:induction false} StepQueues(p: Params, w: World, e: Event)
    requires Enabled(p, w, e) && DeliveryInv(w)
    ensures QueuesInOrder(Step(p, w, e))
  {
    forall n, i: nat | i < |Queue(Step(p, w, e), n)| ensures InOrder(Step(p, w, e), n, i) {
      if e == Handle(n) { HandleInOrder(p, w, n, i); } else { PostInOrder(p, w, e, n, i); }
    }
  }

  /** The head of the queue has nothing ahead of it, so its inputs are in the store. */
  lemma {:induction false} HeadSupplied(w: World, n: Node)
    requires QueuesInOrder(w) && Queue(w, n) != [] && Queue(w, n)[0].Assignment?
    ensures Supplied(w, Queue(w, n)[0].thread, n)
  {
    assert InOrder(w, n, 0);
  }

  lemma {:induction false} SuppliedStays(p: Params, w: World, e: Event, t: nat, n: Node)
    requires Enabled(p, w, e) && Supplied(w, t, n)
    ensures Supplied(Step(p, w, e), t, n)
  {
    InputsStay(p, w, e, t);
    StoredStays(p, w, e, n);
  }

  lemma {:induction false} StepResults(p: Params, w: World, e: Event)
    requires Enabled(p, w, e) && DeliveryInv(w)
    ensures ResultsReal(Step(p, w, e))
  {
    var after := Step(p, w, e);
    forall x | x in after.executing ensures Supplied(after, x.0, x.1) {
      if x !in w.executing { HeadSupplied(w, x.1); }
      SuppliedStays(p, w, e, x.0, x.1);
    }
    forall x | x in after.results && x.2.Some? ensures x.2.value in Stored(after, x.1) {
      StoredStays(p, w, e, x.1);
    }
  }

  lemma {:induction false} ReachesDelivers(p: Params, w: World, events: seq<Event>, after: World)
    requires DeliveryInv(w) && Reaches(p, w, events, after)
    ensures DeliveryInv(after)
    decreases |events|
  {
    if events != [] {
      StepPlaced(p, w, events[0]);
      StepThreads(p, w, events[0]);
      StepCatalog(p, w, events[0]);
      StepQueues(p, w, events[0]);
      StepResults(p, w, events[0]);
      hide ThreadsReady, CatalogSound, QueuesInOrder, ResultsReal, AllPlaced, Step, Enabled;
      ReachesDelivers(p, Step(p, w, events[0]), events[1..], after);
    }
  }

  /** However submissions interleave: every catalog entry is in its node's store or ahead
      in its queue, and whenever an agent comes to an assignment, every input of that
      task is in its store. So is every input of a task being executed. */
  lemma {:induction false} DeliveryOrder(p: Params, events: seq<Event>, w: World)
    requires Reaches(p, Empty, events, w)
    ensures CatalogSound(w)
    ensures forall n | Queue(w, n) != [] && Queue(w, n)[0].Assignment? ::
              && Supplied(w, Queue(w, n)[0].thread, n)
              && w.threads[Queue(w, n)[0].thread].inputs == Queue(w, n)[0].inputs
    ensures forall x | x in w.executing :: Supplied(w, x.0, x.1)
  {
    ReachesDelivers(p, Empty, events, w);
    forall n | Queue(w, n) != [] && Queue(w, n)[0].Assignment?
      ensures Supplied(w, Queue(w, n)[0].thread, n) && w.threads[Queue(w, n)[0].thread].inputs == Queue(w, n)[0].inputs
    {
      assert InOrder(w, n, 0);
    }
  }
}
