/** What becomes of a submission and when it is tried again, and what the controller comes
    to know by it: told from the steps taken. */
module ProtocolOutcomes {
  import opened Core
  import opened Protocol
  import opened ProtocolRetry

  // ---- How an attempt ended ----

  /** What `e` makes of the attempt submission `t` is at, if it settles it: an input nobody
      has is beyond any node, a node that could not be reached or did not answer is not. */
  function Verdict(w: World, e: Event, t: nat): Option<Outcome> {
    match e
    case Check(u) =>
      if u == t < |w.threads| && KeyOf(w.threads[t]).data !in w.library then Some(Failure(Hopeless)) else None
    case SendFails(u) => if u == t then Some(Failure(Unreachable)) else None
    case AssignFails(u) => if u == t then Some(Failure(Unreachable)) else None
    case GiveUpWaiting(u) => if u == t then Some(Failure(Unreachable)) else None
    case Answer(u, from, output) => if u == t then Some(Success(from, output)) else None
    case _ => None
  }

  /** The last verdict on submission `t` in the run. */
  function LastVerdict(p: Params, w: World, events: seq<Event>, t: nat, sofar: Option<Outcome>): Option<Outcome>
    decreases |events|
  {
    if events == [] || !Enabled(p, w, events[0]) then sofar
    else
      var now := Verdict(w, events[0], t);
      LastVerdict(p, Step(p, w, events[0]), events[1..], t, if now.Some? then now else sofar)
  }

  /** A submission whose attempt is over knows the verdict. */
  predicate Informed(th: Thread, verdict: Option<Outcome>) {
    match th.at
    case Landed(o) => verdict == Some(o)
    case Deciding(o) => verdict == Some(o)
    case Moving(_, _, Failing(c)) => verdict == Some(Failure(c))
    case Moving(_, _, FailDropping(c)) => verdict == Some(Failure(c))
    case _ => true
  }

  predicate InformedAt(w: World, t: nat, verdict: Option<Outcome>) {
    t < |w.threads| ==> Informed(w.threads[t], verdict)
  }

  lemma {:induction false} ActInformed(p: Params, w: World, e: Event, t: nat, verdict: Option<Outcome>)
    requires Enabled(p, w, e) && Acts(e) && e.t == t && Informed(w.threads[t], verdict)
    ensures Informed(ThreadAfter(p, w, e), if Verdict(w, e, t).Some? then Verdict(w, e, t) else verdict)
  {}

  lemma {:induction false} StepInformed(p: Params, w: World, e: Event, t: nat, verdict: Option<Outcome>)
    requires Enabled(p, w, e) && InformedAt(w, t, verdict)
    ensures InformedAt(Step(p, w, e), t, if Verdict(w, e, t).Some? then Verdict(w, e, t) else verdict)
  {
    hide PlaceAfter, KeyOf, Retries;
    assert Step(p, w, e).threads == ThreadsAfter(p, w, e);
    hide Step;
    if Acts(e) && e.t == t {
      ActInformed(p, w, e, t, verdict);
    } else {
      assert Verdict(w, e, t).None?;
    }
    hide ThreadAfter, Verdict;
  }

  // ---- After an attempt ----

  predicate Ended(th: Thread) {
    th.at.Done? || th.at.Cancelled?
  }

  /** What is decided once an attempt is over, in every run. The submission is through exactly
      when a node answered, or no other node could help, or it has used up its attempts.
      Otherwise any node it has not tried may be chosen next. */
  lemma {:induction false} DecideExactly(p: Params, events: seq<Event>, w: World, t: nat)
    requires Reaches(p, Empty, events, w) && Enabled(p, w, Decide(t))
    ensures LastVerdict(p, Empty, events, t, None).Some?
    ensures var verdict, after := LastVerdict(p, Empty, events, t, None).value, Step(p, w, Decide(t));
            && |after.threads| == |w.threads|
            && after.threads[t].tried == w.threads[t].tried
            && (Ended(after.threads[t])
                <==> verdict.Success? || verdict == Failure(Hopeless) || |w.threads[t].tried| == p.maxAttempts)
            && (!Ended(after.threads[t]) ==>
                  forall n | n in p.nodes && n !in w.threads[t].tried :: Enabled(p, after, Choose(t, Some(n))))
  {
    ReachesInformed(p, Empty, events, w, t, None);
    ReachesCounts(p, Empty, events, w);
    assert Frugal(p, w.threads[t]);
    hide Reaches, LastVerdict;
    DecideStep(p, w, t);
  }

  lemma {:induction false} DecideStep(p: Params, w: World, t: nat)
    requires Enabled(p, w, Decide(t)) && Frugal(p, w.threads[t])
    ensures var o, after := w.threads[t].at.outcome, Step(p, w, Decide(t));
            && |after.threads| == |w.threads| && after.threads[t].tried == w.threads[t].tried
            && (after.threads[t].at.Choosing? || after.threads[t].at.Done?)
            && (Ended(after.threads[t])
                <==> o.Success? || o == Failure(Hopeless) || |w.threads[t].tried| == p.maxAttempts)
  {
    var o, after := w.threads[t].at.outcome, Step(p, w, Decide(t));
    assert o.Success? || o == Failure(Hopeless) || o == Failure(Unreachable) by {
      if o.Failure? { assert o.cause.Hopeless? || o.cause.Unreachable?; }
    }
    assert after.threads[t] == ThreadAfter(p, w, Decide(t));
    hide Step;
  }

  lemma {:induction false} ReachesInformed(p: Params, w: World, events: seq<Event>, after: World, t: nat,
                                           sofar: Option<Outcome>)
    requires Reaches(p, w, events, after) && InformedAt(w, t, sofar)
    ensures InformedAt(after, t, LastVerdict(p, w, events, t, sofar))
    decreases |events|
  {
    if events != [] {
      var now := Verdict(w, events[0], t);
      StepInformed(p, w, events[0], t, sofar);
      hide Step, Enabled, Verdict, InformedAt;
      ReachesInformed(p, Step(p, w, events[0]), events[1..], after, t, if now.Some? then now else sofar);
    }
  }

  // ---- How a submission ends ----

  /** Through, with what the last attempt came to; offered no node; or dropped by its caller. */
  datatype End = Through(outcome: Outcome) | NoneOffered | GivenUp

  /** How `e` ends submission `t`, if it does. */
  function EndedBy(p: Params, w: World, e: Event, t: nat): Option<End>
    requires Enabled(p, w, e)
  {
    if Acts(e) && e.t == t && !Ended(w.threads[t]) && Ended(ThreadAfter(p, w, e)) then
      match e
      case Decide(_) => Some(Through(w.threads[t].at.outcome))
      case Choose(_, _) => Some(NoneOffered)
      case _ => Some(GivenUp)
    else None
  }

  function Fate(p: Params, w: World, events: seq<Event>, t: nat, sofar: Option<End>): Option<End>
    decreases |events|
  {
    if events == [] || !Enabled(p, w, events[0]) then sofar
    else
      var now := EndedBy(p, w, events[0], t);
      Fate(p, Step(p, w, events[0]), events[1..], t, if now.Some? then now else sofar)
  }

  /** What is known of a submission that ended. */
  predicate Explained(p: Params, th: Thread, verdict: Option<Outcome>, end: Option<End>) {
    && (Ended(th) <==> end.Some?)
    && (end.Some? && end.value.Through? ==>
          && verdict == Some(end.value.outcome)
          && (end.value.outcome == Failure(Unreachable) ==> |th.tried| == p.maxAttempts))
  }

  predicate ExplainedAt(p: Params, w: World, t: nat, verdict: Option<Outcome>, end: Option<End>) {
    if t < |w.threads| then Explained(p, w.threads[t], verdict, end) else end.None?
  }

  lemma {:induction false} ActExplained(p: Params, w: World, e: Event, t: nat, verdict: Option<Outcome>,
                                        end: Option<End>)
    requires Enabled(p, w, e) && Acts(e) && e.t == t && Frugal(p, w.threads[t])
    requires Informed(w.threads[t], verdict) && Explained(p, w.threads[t], verdict, end)
    ensures Explained(p, ThreadAfter(p, w, e),
                      if Verdict(w, e, t).Some? then Verdict(w, e, t) else verdict,
                      if EndedBy(p, w, e, t).Some? then EndedBy(p, w, e, t) else end)
  {
    assert !Ended(w.threads[t]);
    FrugalBound(p, w.threads[t]);
    hide Frugal;
  }

  lemma {:induction false} FrugalBound(p: Params, th: Thread)
    requires Frugal(p, th)
    ensures |th.tried| <= p.maxAttempts
  {}

  lemma {:induction false} StepExplained(p: Params, w: World, e: Event, t: nat, verdict: Option<Outcome>,
                                         end: Option<End>)
    requires Enabled(p, w, e) && AllFrugal(p, w) && InformedAt(w, t, verdict) && ExplainedAt(p, w, t, verdict, end)
    ensures ExplainedAt(p, Step(p, w, e), t,
                        if Verdict(w, e, t).Some? then Verdict(w, e, t) else verdict,
                        if EndedBy(p, w, e, t).Some? then EndedBy(p, w, e, t) else end)
  {
    hide PlaceAfter, KeyOf, Retries;
    assert Step(p, w, e).threads == ThreadsAfter(p, w, e);
    hide Step;
    if Acts(e) && e.t == t {
      ActExplained(p, w, e, t, verdict, end);
    } else {
      assert Verdict(w, e, t).None? && EndedBy(p, w, e, t).None?;
    }
    hide ThreadAfter, Verdict, EndedBy;
  }

  lemma {:induction false} ReachesExplained(p: Params, w: World, events: seq<Event>, after: World, t: nat,
                                            verdict: Option<Outcome>, end: Option<End>)
    requires Reaches(p, w, events, after) && AllFrugal(p, w)
    requires InformedAt(w, t, verdict) && ExplainedAt(p, w, t, verdict, end)
    ensures ExplainedAt(p, after, t, LastVerdict(p, w, events, t, verdict), Fate(p, w, events, t, end))
    decreases |events|
  {
    if events != [] {
      var e := events[0];
      var now, done := Verdict(w, e, t), EndedBy(p, w, e, t);
      StepInformed(p, w, e, t, verdict);
      StepExplained(p, w, e, t, verdict, end);
      StepFrugal(p, w, e);
      hide Step, Enabled, Verdict, EndedBy, InformedAt, ExplainedAt, AllFrugal;
      ReachesExplained(p, Step(p, w, e), events[1..], after, t,
                       if now.Some? then now else verdict, if done.Some? then done else end);
    }
  }

  /** In every run: a submission is over exactly when one of three things ended it, and one
      that went through has what its last attempt came to. If that was a node out of reach,
      it had tried as many as it may. */
  lemma {:induction false} EndsExactly(p: Params, events: seq<Event>, w: World, t: nat)
    requires Reaches(p, Empty, events, w) && t < |w.threads|
    ensures var end := Fate(p, Empty, events, t, None);
            && (Ended(w.threads[t]) <==> end.Some?)
            && (end.Some? && end.value.Through? ==>
                  LastVerdict(p, Empty, events, t, None) == Some(end.value.outcome))
            && (end == Some(Through(Failure(Unreachable))) ==> |w.threads[t].tried| == p.maxAttempts)
  {
    ReachesExplained(p, Empty, events, w, t, None, None);
  }

  // ---- What the controller knows ----

  /** `e` tells the catalog of `k`: sent there whole, reported held, or produced there. */
  predicate Tells(w: World, e: Event, k: Key) {
    match e
    case Record(t) => t < |w.threads| && KeyOf(w.threads[t]) == k
    case Held(n, d) => k == Key(n, d)
    case Decide(t) =>
      t < |w.threads| && w.threads[t].at.Deciding? && w.threads[t].at.outcome == Success(k.node, Some(k.data))
    case _ => false
  }

  /** `e` has the catalog forget `k`: by name, or with everything on a node that could not be
      reached while there are attempts left. */
  predicate Unlearns(p: Params, w: World, e: Event, k: Key) {
    match e
    case Forget(keys) => k in keys
    case Decide(t) =>
      && t < |w.threads| && w.threads[t].at.Deciding? && w.threads[t].at.outcome == Failure(Unreachable)
      && |w.threads[t].tried| != p.maxAttempts && k.node == NodeOf(w.threads[t])
    case _ => false
  }

  /** Whether `k` was last told or last forgotten. */
  predicate Known(p: Params, w: World, events: seq<Event>, k: Key, sofar: bool)
    decreases |events|
  {
    if events == [] || !Enabled(p, w, events[0]) then sofar
    else
      Known(p, Step(p, w, events[0]), events[1..], k,
            Tells(w, events[0], k) || (sofar && !Unlearns(p, w, events[0], k)))
  }

  lemma {:induction false} StepKnown(p: Params, w: World, e: Event, k: Key)
    requires Enabled(p, w, e) && AllFrugal(p, w)
    ensures k in Step(p, w, e).catalog <==> Tells(w, e, k) || (k in w.catalog && !Unlearns(p, w, e, k))
  {
    if e.Decide? { FrugalBound(p, w.threads[e.t]); }
    assert Step(p, w, e).catalog == w.catalog - Gone(p, w, e) + Learned(p, w, e);
    hide Step, KeyOf, Frugal;
  }

  lemma {:induction false} ReachesKnown(p: Params, w: World, events: seq<Event>, after: World, k: Key)
    requires Reaches(p, w, events, after) && AllFrugal(p, w)
    ensures k in after.catalog <==> Known(p, w, events, k, k in w.catalog)
    decreases |events|
  {
    if events != [] {
      StepKnown(p, w, events[0], k);
      StepFrugal(p, w, events[0]);
      hide Step, Enabled, Tells, Unlearns, AllFrugal;
      ReachesKnown(p, Step(p, w, events[0]), events[1..], after, k);
    }
  }

  /** In every run the catalog has a pair exactly when it was told of it and has not had to
      forget it since. */
  lemma {:induction false} CatalogExactly(p: Params, events: seq<Event>, w: World, k: Key)
    requires Reaches(p, Empty, events, w)
    ensures k in w.catalog <==> Known(p, Empty, events, k, false)
  {
    ReachesKnown(p, Empty, events, w, k);
  }

  /** `e` gives the controller a copy of `d`: published, or the output of a task. */
  predicate Brings(w: World, e: Event, d: DataId) {
    match e
    case Publish(published) => d == published
    case Decide(t) =>
      && t < |w.threads| && w.threads[t].at.Deciding? && w.threads[t].at.outcome.Success?
      && w.threads[t].at.outcome.output == Some(d)
    case _ => false
  }

  predicate Brought(p: Params, w: World, events: seq<Event>, d: DataId)
    decreases |events|
  {
    && events != [] && Enabled(p, w, events[0])
    && (Brings(w, events[0], d) || Brought(p, Step(p, w, events[0]), events[1..], d))
  }

  lemma {:induction false} StepBrings(p: Params, w: World, e: Event, d: DataId)
    requires Enabled(p, w, e)
    ensures d in Step(p, w, e).library <==> d in w.library || Brings(w, e, d)
  {
    assert Step(p, w, e).library == LibraryAfter(p, w, e);
    hide Step;
    if e.Decide? {
      var o := w.threads[e.t].at.outcome;
      assert Learned(p, w, e) == if o.Success? && o.output.Some? then {Key(o.from, o.output.value)} else {};
      assert o.Success? && o.output.Some? ==> Key(o.from, o.output.value) in Learned(p, w, e);
    }
  }

  lemma {:induction false} ReachesBrought(p: Params, w: World, events: seq<Event>, after: World, d: DataId)
    requires Reaches(p, w, events, after)
    ensures d in after.library <==> d in w.library || Brought(p, w, events, d)
    decreases |events|
  {
    if events != [] {
      StepBrings(p, w, events[0], d);
      hide Step, Enabled, Brings;
      ReachesBrought(p, Step(p, w, events[0]), events[1..], after, d);
    }
  }

  /** And the controller itself holds exactly what was published or produced. */
  lemma {:induction false} LibraryExactly(p: Params, events: seq<Event>, w: World, d: DataId)
    requires Reaches(p, Empty, events, w)
    ensures d in w.library <==> Brought(p, Empty, events, d)
  {
    ReachesBrought(p, Empty, events, w, d);
  }

  /** What the controller makes of an attempt that is over, in every run: a node to be tried
      no more loses everything it was credited with, no other does, and an output is known to
      be where it was produced, and kept. */
  lemma {:induction false} DecideLearns(p: Params, events: seq<Event>, w: World, t: nat, k: Key)
    requires Reaches(p, Empty, events, w) && Enabled(p, w, Decide(t))
    ensures LastVerdict(p, Empty, events, t, None).Some? && |Step(p, w, Decide(t)).threads| == |w.threads|
    ensures var after := Step(p, w, Decide(t));
            k in w.catalog ==>
              (k in after.catalog <==> Ended(after.threads[t]) || k.node != NodeOf(w.threads[t]))
    ensures var verdict, after := LastVerdict(p, Empty, events, t, None).value, Step(p, w, Decide(t));
            k !in w.catalog ==> (k in after.catalog <==> verdict == Success(k.node, Some(k.data)))
    ensures var verdict, after := LastVerdict(p, Empty, events, t, None).value, Step(p, w, Decide(t));
            verdict == Success(k.node, Some(k.data)) ==> k in after.catalog && k.data in after.library
  {
    DecideExactly(p, events, w, t);
    ReachesInformed(p, Empty, events, w, t, None);
    ReachesCounts(p, Empty, events, w);
    hide Reaches, LastVerdict, Step;
    StepKnown(p, w, Decide(t), k);
    StepBrings(p, w, Decide(t), k.data);
  }
}
