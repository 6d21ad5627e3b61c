/** What is on each connection, in each store and being run, exactly: told from what the
    submissions sent and how much of it the agents have taken. */
module ProtocolWire {
  import opened Core
  import opened Protocol
  import opened ProtocolRetry
  import opened ProtocolOutcomes
  import opened ProtocolTransfers

  // ---- One connection ----

  /** What `e` sends to node `n`: a dataset a submission found missing, or the submission
      itself once all its inputs are seen to. */
  function Sends(w: World, e: Event, n: Node): seq<Message> {
    match e
    case SendWhole(t) =>
      if t < |w.threads| && NodeOf(w.threads[t]) == n then [Data(KeyOf(w.threads[t]).data)] else []
    case Assign(t) =>
      if t < |w.threads| && NodeOf(w.threads[t]) == n then [Assignment(t, w.threads[t].inputs)] else []
    case _ => []
  }

  /** Everything sent to `n` in the run. */
  function SentTo(p: Params, w: World, events: seq<Event>, n: Node): seq<Message>
    decreases |events|
  {
    if events == [] || !Enabled(p, w, events[0]) then []
    else Sends(w, events[0], n) + SentTo(p, Step(p, w, events[0]), events[1..], n)
  }

  /** How often the agent on `n` took a message. */
  function TakenOn(events: seq<Event>, n: Node): nat {
    if events == [] then 0 else (if events[0] == Handle(n) then 1 else 0) + TakenOn(events[1..], n)
  }

  lemma {:induction false} StepQueue(p: Params, w: World, e: Event, n: Node)
    requires Enabled(p, w, e)
    ensures e == Handle(n) ==> Queue(w, n) != [] && Sends(w, e, n) == []
    ensures Queue(Step(p, w, e), n) == (if e == Handle(n) then Queue(w, n)[1..] else Queue(w, n)) + Sends(w, e, n)
  {
    assert Step(p, w, e).queued == QueuedAfter(p, w, e);
    hide Step, KeyOf;
    assert Queue(w, n) + [] == Queue(w, n);
  }

  lemma {:induction false} TakeThenSend(q: seq<Message>, first: nat, more: seq<Message>, rest: seq<Message>, k: nat)
    requires first <= |q| && k <= |q[first..] + more + rest|
    ensures first + k <= |q + (more + rest)| && (q[first..] + more + rest)[k..] == (q + (more + rest))[first + k..]
  {
    assert q[first..] + more + rest == (q + (more + rest))[first..];
  }

  /** What has been taken off the queue, and what is on it, is what was sent, in that order. */
  lemma {:induction false} QueueExactly(p: Params, w: World, events: seq<Event>, after: World, n: Node)
    requires Reaches(p, w, events, after)
    ensures var all := Queue(w, n) + SentTo(p, w, events, n);
            TakenOn(events, n) <= |all| && Queue(after, n) == all[TakenOn(events, n)..]
    decreases |events|
  {
    hide Step, Enabled, Queue, Sends;
    if events == [] {
      assert Queue(w, n) + [] == Queue(w, n);
    } else {
      var e := events[0];
      var next := Step(p, w, e);
      StepQueue(p, w, e, n);
      QueueExactly(p, next, events[1..], after, n);
      var q, first: nat := Queue(w, n), if e == Handle(n) then 1 else 0;
      assert q[0..] == q;
      TakeThenSend(q, first, Sends(w, e, n), SentTo(p, next, events[1..], n), TakenOn(events[1..], n));
    }
  }

  // ---- What the agents do with it ----

  /** `m` is among the messages taken. */
  predicate Took(p: Params, w: World, events: seq<Event>, n: Node, m: Message)
    decreases |events|
  {
    && events != [] && Enabled(p, w, events[0])
    && ((events[0] == Handle(n) && Queue(w, n) != [] && Queue(w, n)[0] == m)
        || Took(p, Step(p, w, events[0]), events[1..], n, m))
  }

  /** A task run on `n` left `d`. */
  predicate LeftOn(events: seq<Event>, n: Node, d: DataId) {
    exists i | 0 <= i < |events| :: events[i].Execute? && events[i].node == n && events[i].output == Some(d)
  }

  lemma {:induction false} StepStores(p: Params, w: World, e: Event, n: Node, d: DataId)
    requires Enabled(p, w, e)
    ensures d in Stored(Step(p, w, e), n)
       <==> || d in Stored(w, n)
            || (e == Handle(n) && Queue(w, n)[0] == Data(d))
            || (e.Execute? && e.node == n && e.output == Some(d))
  {
    assert Step(p, w, e).stores == StoresAfter(p, w, e);
    hide Step;
  }

  lemma {:induction false} LeftFirst(events: seq<Event>, n: Node, d: DataId)
    requires events != []
    ensures LeftOn(events, n, d)
       <==> (events[0].Execute? && events[0].node == n && events[0].output == Some(d)) || LeftOn(events[1..], n, d)
  {
    if i :| 0 < i < |events| && events[i].Execute? && events[i].node == n && events[i].output == Some(d) {
      assert events[1..][i - 1] == events[i];
    }
    if LeftOn(events[1..], n, d) {
      var rest := events[1..];
      var i :| 0 <= i < |rest| && rest[i].Execute? && rest[i].node == n && rest[i].output == Some(d);
      assert events[i + 1] == rest[i];
    }
  }

  lemma {:induction false} StoresExactly(p: Params, w: World, events: seq<Event>, after: World, n: Node, d: DataId)
    requires Reaches(p, w, events, after)
    ensures d in Stored(after, n)
       <==> d in Stored(w, n) || Took(p, w, events, n, Data(d)) || LeftOn(events, n, d)
    decreases |events|
  {
    if events != [] {
      StepStores(p, w, events[0], n, d);
      LeftFirst(events, n, d);
      StoresExactly(p, Step(p, w, events[0]), events[1..], after, n, d);
      hide Step, Queue, LeftOn, Stored;
    }
  }

  /** Submission `t` has been handed to the agent on `n`. */
  ghost predicate HandedOver(p: Params, w: World, events: seq<Event>, n: Node, t: nat) {
    exists inputs :: Took(p, w, events, n, Assignment(t, inputs))
  }

  lemma {:induction false} StepExecutes(p: Params, w: World, e: Event, n: Node, t: nat)
    requires Enabled(p, w, e)
    ensures (t, n) in Step(p, w, e).executing
       <==> || (t, n) in w.executing
            || (e == Handle(n) && Queue(w, n)[0].Assignment? && Queue(w, n)[0].thread == t)
  {
    assert Step(p, w, e).executing == ExecutingAfter(p, w, e);
    hide Step;
  }

  lemma {:induction false} ExecutingExactly(p: Params, w: World, events: seq<Event>, after: World, n: Node, t: nat)
    requires Reaches(p, w, events, after)
    ensures (t, n) in after.executing <==> (t, n) in w.executing || HandedOver(p, w, events, n, t)
    decreases |events|
  {
    if events != [] {
      var e, next := events[0], Step(p, w, events[0]);
      StepExecutes(p, w, e, n, t);
      ExecutingExactly(p, next, events[1..], after, n, t);
      hide Step, Enabled;
      var here := e == Handle(n) && Queue(w, n) != [] && Queue(w, n)[0].Assignment? && Queue(w, n)[0].thread == t;
      if here { assert Took(p, w, events, n, Assignment(t, Queue(w, n)[0].inputs)); }
      if HandedOver(p, next, events[1..], n, t) {
        var inputs :| Took(p, next, events[1..], n, Assignment(t, inputs));
        assert Took(p, w, events, n, Assignment(t, inputs));
      }
      if HandedOver(p, w, events, n, t) {
        var inputs :| Took(p, w, events, n, Assignment(t, inputs));
        assert here || Took(p, next, events[1..], n, Assignment(t, inputs));
      }
    }
  }

  lemma {:induction false} StepResults(p: Params, w: World, e: Event, t: nat, n: Node, output: Option<DataId>)
    requires Enabled(p, w, e)
    ensures (t, n, output) in Step(p, w, e).results <==> (t, n, output) in w.results || e == Execute(t, n, output)
  {}

  lemma {:induction false} ResultsExactly(p: Params, w: World, events: seq<Event>, after: World, t: nat, n: Node,
                                          output: Option<DataId>)
    requires Reaches(p, w, events, after)
    ensures (t, n, output) in after.results <==> (t, n, output) in w.results || Execute(t, n, output) in events
    decreases |events|
  {
    if events != [] {
      StepResults(p, w, events[0], t, n, output);
      ResultsExactly(p, Step(p, w, events[0]), events[1..], after, t, n, output);
      hide Step, Enabled;
      assert events == [events[0]] + events[1..];
    }
  }

  /** In every run, node by node: the queue is what was sent less what was taken, in order; the
      store holds the data taken and the outputs left there; a submission is being run there
      exactly when its assignment was taken; and a result is there exactly when it was run. */
  lemma {:induction false} WireExactly(p: Params, events: seq<Event>, w: World, n: Node, d: DataId, t: nat,
                                       output: Option<DataId>)
    requires Reaches(p, Empty, events, w)
    ensures var all := SentTo(p, Empty, events, n);
            TakenOn(events, n) <= |all| && Queue(w, n) == all[TakenOn(events, n)..]
    ensures d in Stored(w, n) <==> Took(p, Empty, events, n, Data(d)) || LeftOn(events, n, d)
    ensures (t, n) in w.executing <==> HandedOver(p, Empty, events, n, t)
    ensures (t, n, output) in w.results <==> Execute(t, n, output) in events
  {
    QueueExactly(p, Empty, events, w, n);
    assert Queue(Empty, n) == [] && [] + SentTo(p, Empty, events, n) == SentTo(p, Empty, events, n);
    StoresExactly(p, Empty, events, w, n, d);
    ExecutingExactly(p, Empty, events, w, n, t);
    ResultsExactly(p, Empty, events, w, t, n, output);
  }

  // ---- What was asked for ----

  /** The inputs of each submission, in the order they were made. */
  function AskedFor(events: seq<Event>): seq<seq<DataId>> {
    if events == [] then []
    else (if events[0].Start? then [events[0].inputs] else []) + AskedFor(events[1..])
  }

  function InputsOf(ts: seq<Thread>): seq<seq<DataId>> {
    seq(|ts|, t requires 0 <= t < |ts| => ts[t].inputs)
  }

  lemma {:induction false} StepAsks(p: Params, w: World, e: Event)
    requires Enabled(p, w, e)
    ensures InputsOf(Step(p, w, e).threads) == InputsOf(w.threads) + if e.Start? then [e.inputs] else []
  {
    assert Step(p, w, e).threads == ThreadsAfter(p, w, e);
    hide Step, PlaceAfter;
  }

  lemma {:induction false} AskedExactly(p: Params, w: World, events: seq<Event>, after: World)
    requires Reaches(p, w, events, after)
    ensures InputsOf(after.threads) == InputsOf(w.threads) + AskedFor(events)
    decreases |events|
  {
    hide Step, Enabled, InputsOf;
    if events == [] {
      assert InputsOf(w.threads) + [] == InputsOf(w.threads);
    } else {
      StepAsks(p, w, events[0]);
      AskedExactly(p, Step(p, w, events[0]), events[1..], after);
      var first := if events[0].Start? then [events[0].inputs] else [];
      var before, rest := InputsOf(w.threads), AskedFor(events[1..]);
      assert before + first + rest == before + (first + rest);
    }
  }

  /** In every run each submission reads what it was made with, and what is sent to a node to
      be run is a submission with just those inputs. */
  lemma {:induction false} InputsExactly(p: Params, events: seq<Event>, w: World, t: nat, n: Node)
    requires Reaches(p, Empty, events, w)
    ensures |w.threads| == |AskedFor(events)|
    ensures t < |w.threads| ==> w.threads[t].inputs == AskedFor(events)[t]
    ensures Enabled(p, w, Assign(t)) && NodeOf(w.threads[t]) == n ==>
              Queue(Step(p, w, Assign(t)), n) == Queue(w, n) + [Assignment(t, AskedFor(events)[t])]
  {
    hide Step, Reaches, Queue;
    AskedExactly(p, Empty, events, w);
    assert InputsOf(Empty.threads) == [] && [] + AskedFor(events) == AskedFor(events);
    assert InputsOf(w.threads) == AskedFor(events);
    assert t < |w.threads| ==> InputsOf(w.threads)[t] == w.threads[t].inputs;
    hide InputsOf;
    if Enabled(p, w, Assign(t)) { StepQueue(p, w, Assign(t), n); }
  }

  /** Whoever is about to send something, it is something the controller holds. */
  predicate Supplied(w: World) {
    forall t | 0 <= t < |w.threads| && w.threads[t].at.Moving? && w.threads[t].at.stage.Sending? ::
      KeyOf(w.threads[t]).data in w.library
  }

  lemma {:induction false} StepSupplied(p: Params, w: World, e: Event)
    requires Enabled(p, w, e) && Supplied(w)
    ensures Supplied(Step(p, w, e))
  {
    var after := Step(p, w, e);
    assert after.threads == ThreadsAfter(p, w, e) && w.library <= after.library by {
      hide QueuedAfter, StoresAfter, ForgetsAfter, SendsAfter, ExecutingAfter, InFlightAfter, LocksAfter;
    }
    hide Step;
    forall t | 0 <= t < |after.threads| && after.threads[t].at.Moving? && after.threads[t].at.stage.Sending?
      ensures KeyOf(after.threads[t]).data in after.library
    {
      if Acts(e) && e.t == t { assert e.Check?; }
    }
  }

  /** In every run, what is sent to a node is something the controller holds. */
  lemma {:induction false} SendsWhatItHas(p: Params, w: World, events: seq<Event>, after: World, t: nat)
    requires Reaches(p, w, events, after) && Supplied(w)
    ensures Supplied(after)
    ensures Enabled(p, after, SendWhole(t)) ==> KeyOf(after.threads[t]).data in after.library
    decreases |events|
  {
    if events != [] {
      StepSupplied(p, w, events[0]);
      SendsWhatItHas(p, Step(p, w, events[0]), events[1..], after, t);
      hide Step;
    }
  }

  // ---- How often a dataset is sent ----

  /** Times `k` was sent whole, and times the catalog lost it. */
  function TimesSent(p: Params, w: World, events: seq<Event>, k: Key): nat
    decreases |events|
  {
    if events == [] || !Enabled(p, w, events[0]) then 0
    else
      var here := events[0].SendWhole? && KeyOf(w.threads[events[0].t]) == k;
      (if here then 1 else 0) + TimesSent(p, Step(p, w, events[0]), events[1..], k)
  }

  function TimesLost(p: Params, w: World, events: seq<Event>, k: Key): nat
    decreases |events|
  {
    if events == [] || !Enabled(p, w, events[0]) then 0
    else
      var here := k in w.catalog && Unlearns(p, w, events[0], k);
      (if here then 1 else 0) + TimesLost(p, Step(p, w, events[0]), events[1..], k)
  }

  lemma {:induction false} StepTimes(p: Params, w: World, e: Event, k: Key)
    requires Enabled(p, w, e) && AllFrugal(p, w)
    ensures Get(Step(p, w, e).sends, k)
         == Get(w.sends, k) + if e.SendWhole? && KeyOf(w.threads[e.t]) == k then 1 else 0
    ensures Get(Step(p, w, e).forgets, k)
         == Get(w.forgets, k) + if k in w.catalog && Unlearns(p, w, e, k) then 1 else 0
  {
    assert Step(p, w, e).sends == SendsAfter(p, w, e) && Step(p, w, e).forgets == ForgetsAfter(p, w, e);
    hide Step, KeyOf;
    if e.Decide? { FrugalBound(p, w.threads[e.t]); }
    hide Frugal;
    assert k in Gone(p, w, e) <==> k in w.catalog && Unlearns(p, w, e, k);
  }

  lemma {:induction false} TimesExactly(p: Params, w: World, events: seq<Event>, after: World, k: Key)
    requires Reaches(p, w, events, after) && AllFrugal(p, w)
    ensures Get(after.sends, k) == Get(w.sends, k) + TimesSent(p, w, events, k)
    ensures Get(after.forgets, k) == Get(w.forgets, k) + TimesLost(p, w, events, k)
    decreases |events|
  {
    if events != [] {
      StepTimes(p, w, events[0], k);
      StepFrugal(p, w, events[0]);
      TimesExactly(p, Step(p, w, events[0]), events[1..], after, k);
      hide Step, KeyOf, Unlearns;
    }
  }

  /** With reuse on, in every run, a dataset is sent whole to a node at most once more than the
      catalog lost the pair. */
  lemma {:induction false} SentOnceMore(p: Params, events: seq<Event>, w: World, k: Key)
    requires p.reuse && Reaches(p, Empty, events, w)
    ensures TimesSent(p, Empty, events, k) <= 1 + TimesLost(p, Empty, events, k)
  {
    SendBound(p, events, w, k);
    TimesExactly(p, Empty, events, w, k);
  }
}
