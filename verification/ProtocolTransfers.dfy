/** What single flight is for: how often a dataset is sent, that nobody waits for ever,
    and exactly when the map of locks is left with an entry nobody uses. */
module ProtocolTransfers {
  import opened Core
  import opened Protocol
  import opened ProtocolLocks

  // ---- How often a dataset is sent ----

  predicate StageOn(th: Thread, k: Key, stage: Stage) {
    th.at.Moving? && th.at.stage == stage && KeyOf(th) == k
  }

  predicate Anyone(w: World, k: Key, stage: Stage) {
    exists t | 0 <= t < |w.threads| :: StageOn(w.threads[t], k, stage)
  }

  /** Sends of a pair, against the times the catalog forgot it. */
  predicate Bounded(w: World, k: Key) {
    && Get(w.sends, k) <= Get(w.forgets, k) + (if k in w.catalog || Anyone(w, k, Sent) then 1 else 0)
    && (Anyone(w, k, Sending) ==> Get(w.sends, k) <= Get(w.forgets, k))
  }

  lemma {:induction false} OnlyOwner(w: World, t: nat, u: nat)
    requires LockInv(w) && t < |w.threads| && u < |w.threads|
    requires w.threads[t].at.Moving? && Owns(w.threads[t], w.threads[t].at.lock)
    requires w.threads[u].at.Moving? && Owns(w.threads[u], w.threads[u].at.lock)
    requires KeyOf(w.threads[t]) == KeyOf(w.threads[u])
    ensures t == u
  {
    assert Fits(w.threads[t], w.locks) && Fits(w.threads[u], w.locks);
  }

  lemma {:induction false} ForgetsGrow(p: Params, w: World, e: Event, k: Key)
    requires Enabled(p, w, e)
    ensures Gone(p, w, e) <= w.catalog
    ensures Get(Step(p, w, e).forgets, k) == Get(w.forgets, k) + if k in Gone(p, w, e) then 1 else 0
  {}

  /** Which steps begin and end the two stages. */
  lemma {:induction false} ActStages(p: Params, w: World, e: Event, k: Key)
    requires Enabled(p, w, e) && Acts(e)
    ensures StageOn(ThreadAfter(p, w, e), k, Sending) ==>
              e.Check? && StageOn(w.threads[e.t], k, Holding) && (k !in w.catalog || !p.reuse)
    ensures StageOn(ThreadAfter(p, w, e), k, Sent) <==> e.SendWhole? && KeyOf(w.threads[e.t]) == k
    ensures StageOn(w.threads[e.t], k, Sent) ==> e.Record? && k in Learned(p, w, e)
    ensures e.SendWhole? ==> StageOn(w.threads[e.t], KeyOf(w.threads[e.t]), Sending)
  {}

  lemma {:induction false} StageStays(p: Params, w: World, e: Event, k: Key, stage: Stage, t: nat)
    requires Enabled(p, w, e) && t < |w.threads| && !(Acts(e) && e.t == t) && StageOn(w.threads[t], k, stage)
    ensures Anyone(Step(p, w, e), k, stage)
  {
    assert Step(p, w, e).threads[t] == w.threads[t];
  }

  /** A pair is credited while it is in the catalog or just sent; a step that ends this
      forgets it. */
  lemma {:induction false} CreditStays(p: Params, w: World, e: Event, k: Key)
    requires Enabled(p, w, e) && (k in w.catalog || Anyone(w, k, Sent))
    ensures k in Step(p, w, e).catalog || Anyone(Step(p, w, e), k, Sent) || k in Gone(p, w, e)
  {
    if k !in w.catalog {
      var t :| 0 <= t < |w.threads| && StageOn(w.threads[t], k, Sent);
      if Acts(e) && e.t == t { ActStages(p, w, e, k); } else { StageStays(p, w, e, k, Sent, t); }
    }
  }

  lemma {:induction false} SendStep(p: Params, w: World, e: Event, k: Key)
    requires Enabled(p, w, e) && e.SendWhole? && LockInv(w) && Bounded(w, k)
    ensures Bounded(Step(p, w, e), k)
  {
    hide Bounded;
    var th, after := w.threads[e.t], Step(p, w, e);
    ForgetsGrow(p, w, e, k);
    ActStages(p, w, e, k);
    if KeyOf(th) == k {
      assert StageOn(th, k, Sending) && StageOn(after.threads[e.t], k, Sent);
      forall u | 0 <= u < |w.threads| && u != e.t ensures !StageOn(after.threads[u], k, Sending) {
        if StageOn(w.threads[u], k, Sending) { OnlyOwner(w, e.t, u); }
      }
    }
    SendArithmetic(w, after, e.t, k);
  }

  lemma {:induction false} SendArithmetic(w: World, after: World, t: nat, k: Key)
    requires Bounded(w, k) && t < |w.threads| == |after.threads| && after.catalog == w.catalog
    requires after.threads == w.threads[t := after.threads[t]]
    requires Get(after.forgets, k) == Get(w.forgets, k)
    requires StageOn(w.threads[t], KeyOf(w.threads[t]), Sending) && !StageOn(after.threads[t], k, Sending)
    requires Get(after.sends, k) == Get(w.sends, k) + if KeyOf(w.threads[t]) == k then 1 else 0
    requires KeyOf(w.threads[t]) == k ==> StageOn(after.threads[t], k, Sent) && !Anyone(after, k, Sending)
    ensures Bounded(after, k)
  {
    assert Anyone(w, KeyOf(w.threads[t]), Sending);
    if KeyOf(w.threads[t]) == k {
      assert Anyone(after, k, Sent);
    } else {
      if Anyone(after, k, Sending) {
        var u :| 0 <= u < |after.threads| && StageOn(after.threads[u], k, Sending);
        assert StageOn(w.threads[u], k, Sending);
      }
      if Anyone(w, k, Sent) {
        var u :| 0 <= u < |w.threads| && StageOn(w.threads[u], k, Sent);
        assert StageOn(after.threads[u], k, Sent);
      }
    }
  }

  /** A thread comes to send only where the catalog and every other submission are silent. */
  lemma {:induction false} CheckStep(p: Params, w: World, e: Event, k: Key)
    requires p.reuse && Enabled(p, w, e) && !e.SendWhole? && LockInv(w)
    requires Anyone(Step(p, w, e), k, Sending) && !Anyone(w, k, Sending)
    ensures k !in w.catalog && !Anyone(w, k, Sent)
  {
    var after := Step(p, w, e);
    var t :| 0 <= t < |after.threads| && StageOn(after.threads[t], k, Sending);
    assert Acts(e) && e.t == t;
    ActStages(p, w, e, k);
    forall u | 0 <= u < |w.threads| ensures !StageOn(w.threads[u], k, Sent) {
      if StageOn(w.threads[u], k, Sent) { OnlyOwner(w, t, u); }
    }
  }

  lemma {:induction false} StepBounded(p: Params, w: World, e: Event, k: Key)
    requires p.reuse && Enabled(p, w, e) && LockInv(w) && Bounded(w, k)
    ensures Bounded(Step(p, w, e), k)
  {
    if e.SendWhole? {
      SendStep(p, w, e, k);
    } else {
      var after := Step(p, w, e);
      ForgetsGrow(p, w, e, k);
      if k in w.catalog || Anyone(w, k, Sent) { CreditStays(p, w, e, k); }
      if Anyone(after, k, Sending) && !Anyone(w, k, Sending) { CheckStep(p, w, e, k); }
      hide LockInv, Anyone, Step, Gone, Enabled;
    }
  }

  lemma {:induction false} ReachesBounded(p: Params, w: World, events: seq<Event>, after: World, k: Key)
    requires p.reuse && LockInv(w) && Bounded(w, k) && Reaches(p, w, events, after)
    ensures Bounded(after, k)
    decreases |events|
  {
    if events != [] {
      StepKeepsLocks(p, w, events[0]);
      StepBounded(p, w, events[0], k);
      ReachesBounded(p, Step(p, w, events[0]), events[1..], after, k);
    }
  }

  /** With reuse on, a dataset is sent whole to a node at most once more than the catalog
      has forgotten it, however many submissions want it at once. */
  lemma {:induction false} SendBound(p: Params, events: seq<Event>, w: World, k: Key)
    requires p.reuse && Reaches(p, Empty, events, w)
    ensures Get(w.sends, k) <= 1 + Get(w.forgets, k)
  {
    ReachesBounded(p, Empty, events, w, k);
  }

  // ---- Nobody waits for ever on a lock ----

  predicate Over(th: Thread) {
    th.at.Done? || th.at.Cancelled?
  }

  /** What a thread that is not waiting for a lock can do next. */
  function OwnStep(p: Params, w: World, t: nat): Event
    requires t < |w.threads|
  {
    var th := w.threads[t];
    match th.at
    case Choosing => Choose(t, None)
    case Next(i) => if i < |th.inputs| then WantLock(t) else AssignFails(t)
    case Moving(_, _, stage) =>
      (match stage
       case Waiting => Lock(t)
       case Holding => if p.reuse && KeyOf(th) in w.catalog then Skip(t) else Check(t)
       case Sending => SendFails(t)
       case Sent => Record(t)
       case Unlocking => Unlock(t)
       case Releasing => Release(t)
       case Dropping => Drop(t)
       case Failing(_) => FailUnlock(t)
       case FailDropping(_) => FailDrop(t))
    case Awaiting => GiveUpWaiting(t)
    case Landed(_) => CountDown(t)
    case Deciding(_) => Decide(t)
    case Done => Cancel(t)
    case Cancelled => Cancel(t)
  }

  lemma {:induction false} OwnStepEnabled(p: Params, w: World, t: nat)
    requires t < |w.threads| && Placed(w.threads[t]) && !Over(w.threads[t])
    requires At(w, t, Waiting) ==> Free(w, w.threads[t].at.lock)
    ensures Enabled(p, w, OwnStep(p, w, t)) && Acts(OwnStep(p, w, t)) && !OwnStep(p, w, t).Cancel?
  {}

  /** As long as a submission is not over, one can go on, and without being cancelled: a
      lock that is taken is held by one that can. */
  lemma {:induction false} NoDeadlock(p: Params, events: seq<Event>, w: World, t: nat) returns (e: Event)
    requires Reaches(p, Empty, events, w) && t < |w.threads| && !Over(w.threads[t])
    ensures Enabled(p, w, e) && Acts(e) && !e.Cancel?
  {
    ReachesKeepsLocks(p, Empty, events, w);
    var u := t;
    if At(w, t, Waiting) && !Free(w, w.threads[t].at.lock) {
      u :| 0 <= u < |w.threads| && Owns(w.threads[u], w.threads[t].at.lock);
    }
    assert Placed(w.threads[u]);
    hide LockInv, Reaches, OwnStep, Enabled;
    OwnStepEnabled(p, w, u);
    e := OwnStep(p, w, u);
  }

  // ---- Entries nobody uses ----

  predicate LiveOn(th: Thread, k: Key) {
    th.at.Moving? && !th.at.stage.Dropping? && KeyOf(th) == k
  }

  predicate Attended(w: World, k: Key) {
    exists t | 0 <= t < |w.threads| :: LiveOn(w.threads[t], k)
  }

  predicate Orphan(w: World, k: Key) {
    k in w.locks.transfers && !Attended(w, k)
  }

  /** The last submission concerned with `k` leaves without taking the lock out of the
      map: by an error, by being cancelled, or by releasing while another still has a
      handle it is about to drop. */
  predicate Abandons(p: Params, w: World, e: Event, k: Key)
    requires Enabled(p, w, e)
  {
    && (e.FailDrop? || e.Release? || e.Cancel?)
    && LiveOn(w.threads[e.t], k)
    && (forall u | 0 <= u < |w.threads| && u != e.t :: !LiveOn(w.threads[u], k))
    && (e.Release? ==> exists u | 0 <= u < |w.threads| && u != e.t :: HasLock(w.threads[e.t].at.lock)(w.threads[u]))
  }

  lemma {:induction false} ActLive(p: Params, w: World, e: Event, k: Key)
    requires Enabled(p, w, e) && Acts(e) && LiveOn(w.threads[e.t], k)
    ensures LiveOn(ThreadAfter(p, w, e), k) <==> !(e.FailDrop? || e.Release? || e.Cancel?)
  {}

  lemma {:induction false} NewEntry(p: Params, w: World, e: Event, k: Key)
    requires Enabled(p, w, e) && AllPlaced(w) && k !in w.locks.transfers && k in LocksAfter(p, w, e).transfers
    ensures Acts(e) && LiveOn(ThreadAfter(p, w, e), k)
  {
    assert e.WantLock?;
  }

  /** Somebody else still at work on `k` keeps it from being orphaned. */
  lemma {:induction false} OtherAttends(p: Params, w: World, e: Event, k: Key, t: nat)
    requires Enabled(p, w, e) && t < |w.threads| && LiveOn(w.threads[t], k) && !(Acts(e) && e.t == t)
    ensures !Orphan(Step(p, w, e), k) && !Abandons(p, w, e, k)
  {
    var after := Step(p, w, e);
    assert after.threads[t] == w.threads[t];
    assert Attended(after, k);
  }

  /** An entry is orphaned by exactly these steps. */
  lemma {:induction false} LeaksExactly(p: Params, w: World, e: Event, k: Key)
    requires Enabled(p, w, e) && LockInv(w) && !Orphan(w, k)
    ensures Orphan(Step(p, w, e), k) <==> Abandons(p, w, e, k)
  {
    if k !in w.locks.transfers {
      NotThere(p, w, e, k);
    } else {
      var t :| 0 <= t < |w.threads| && LiveOn(w.threads[t], k);
      hide LockInv, Step, Orphan, Abandons, LiveOn;
      if Acts(e) && e.t == t {
        ActLive(p, w, e, k);
        LastLeaves(p, w, e, k);
      } else {
        OtherAttends(p, w, e, k, t);
      }
    }
  }

  lemma {:induction false} NotThere(p: Params, w: World, e: Event, k: Key)
    requires Enabled(p, w, e) && LockInv(w) && k !in w.locks.transfers
    ensures !Orphan(Step(p, w, e), k) && !Abandons(p, w, e, k)
  {
    hide QueuedAfter, StoresAfter, ForgetsAfter, SendsAfter, ExecutingAfter, InFlightAfter, LibraryAfter, Learned, Gone;
    var after := Step(p, w, e);
    if k in after.locks.transfers {
      NewEntry(p, w, e, k);
      assert LiveOn(after.threads[e.t], k);
    }
    assert Acts(e) ==> Fits(w.threads[e.t], w.locks);
  }

  lemma {:induction false} LastLeaves(p: Params, w: World, e: Event, k: Key)
    requires Enabled(p, w, e) && LockInv(w) && Acts(e) && LiveOn(w.threads[e.t], k)
    requires LiveOn(ThreadAfter(p, w, e), k) <==> !(e.FailDrop? || e.Release? || e.Cancel?)
    ensures Orphan(Step(p, w, e), k) <==> Abandons(p, w, e, k)
  {
    hide QueuedAfter, StoresAfter, ForgetsAfter, SendsAfter, ExecutingAfter, InFlightAfter, LibraryAfter, Learned, Gone;
    var after := Step(p, w, e);
    OthersAttend(p, w, e, k);
    if LiveOn(after.threads[e.t], k) {
      assert Attended(after, k);
    } else if e.Release? {
      ReleaseExact(p, w, e.t);
    } else {
      assert Fits(w.threads[e.t], w.locks);
      assert k in after.locks.transfers;
    }
    hide LockInv, Step, LiveOn, Enabled;
  }

  /** Whoever is left to attend to `k`, if not the one that acts. */
  lemma {:induction false} OthersAttend(p: Params, w: World, e: Event, k: Key)
    requires Enabled(p, w, e) && Acts(e) && |Step(p, w, e).threads| == |w.threads|
    ensures Step(p, w, e).threads[e.t] == ThreadAfter(p, w, e)
    ensures !LiveOn(ThreadAfter(p, w, e), k) ==>
              (Attended(Step(p, w, e), k) <==> exists u | 0 <= u < |w.threads| && u != e.t :: LiveOn(w.threads[u], k))
  {
    hide LocksAfter, QueuedAfter, StoresAfter, ForgetsAfter, SendsAfter, ExecutingAfter, InFlightAfter, LibraryAfter;
    var after := Step(p, w, e);
    assert forall u | 0 <= u < |w.threads| && u != e.t :: after.threads[u] == w.threads[u];
    hide ThreadAfter, LiveOn;
  }

  /** A run in which no step abandons an entry. */
  ghost predicate Tidy(p: Params, w: World, events: seq<Event>)
    decreases |events|
  {
    events != [] ==>
      && Enabled(p, w, events[0])
      && (forall k :: !Abandons(p, w, events[0], k))
      && Tidy(p, Step(p, w, events[0]), events[1..])
  }

  lemma {:induction false} TidyFrom(p: Params, w: World, events: seq<Event>, after: World)
    requires Reaches(p, w, events, after) && Tidy(p, w, events) && LockInv(w)
    requires forall k :: !Orphan(w, k)
    ensures forall k :: !Orphan(after, k)
    decreases |events|
  {
    if events != [] {
      var next := Step(p, w, events[0]);
      forall k ensures !Orphan(next, k) { LeaksExactly(p, w, events[0], k); }
      StepKeepsLocks(p, w, events[0]);
      TidyFrom(p, next, events[1..], after);
    }
  }

  /** Such a run leaves the map empty once every submission is over. */
  lemma {:induction false} TidyLeavesNothing(p: Params, events: seq<Event>, w: World)
    requires Reaches(p, Empty, events, w) && Tidy(p, Empty, events)
    requires forall t | 0 <= t < |w.threads| :: Over(w.threads[t])
    ensures w.locks.transfers == map[]
  {
    assert forall k :: !Orphan(Empty, k);
    TidyFrom(p, Empty, events, w);
    assert forall k :: Orphan(w, k) <==> k in w.locks.transfers;
    assert w.locks.transfers.Keys == {};
  }

  // ---- Until somebody comes for the pair again ----

  /** A submission takes `k` up. */
  predicate TakesUp(w: World, e: Event, k: Key) {
    && e.WantLock? && Ready(w, e.t)
    && var th := w.threads[e.t];
       th.at.i < |th.inputs| && Key(NodeOf(th), th.inputs[th.at.i]) == k
  }

  /** Nothing comes to work on `k` but by taking it up. */
  lemma {:induction false} LiveBefore(p: Params, w: World, e: Event, k: Key)
    requires Enabled(p, w, e) && Acts(e) && !LiveOn(w.threads[e.t], k)
    ensures LiveOn(ThreadAfter(p, w, e), k) <==> TakesUp(w, e, k)
  {}

  /** Only a submission at work on a pair takes its entry out. */
  lemma {:induction false} EntryStays(p: Params, w: World, e: Event, k: Key)
    requires Enabled(p, w, e) && Orphan(w, k)
    ensures k in LocksAfter(p, w, e).transfers
  {
    assert e.Release? ==> LiveOn(w.threads[e.t], KeyOf(w.threads[e.t]));
  }

  /** Who is at work on `k` afterwards, when nobody was before. */
  lemma {:induction false} AttendedNow(p: Params, w: World, e: Event, k: Key)
    requires Enabled(p, w, e) && !Attended(w, k)
    ensures Attended(Step(p, w, e), k) <==> TakesUp(w, e, k)
  {
    hide LocksAfter, QueuedAfter, StoresAfter, ForgetsAfter, SendsAfter, ExecutingAfter, InFlightAfter, LibraryAfter;
    var after := Step(p, w, e);
    assert after.threads == ThreadsAfter(p, w, e);
    hide Step;
    if Acts(e) {
      ActedNow(p, w, e, k, after.threads);
    } else {
      assert forall u | 0 <= u < |w.threads| :: after.threads[u] == w.threads[u];
    }
  }

  lemma {:induction false} ActedNow(p: Params, w: World, e: Event, k: Key, after: seq<Thread>)
    requires Enabled(p, w, e) && Acts(e) && !Attended(w, k) && after == w.threads[e.t := ThreadAfter(p, w, e)]
    ensures (exists t | 0 <= t < |after| :: LiveOn(after[t], k)) <==> TakesUp(w, e, k)
  {
    assert e.t < |w.threads|;
    LiveBefore(p, w, e, k);
    hide ThreadAfter, TakesUp, LiveOn, Enabled;
    assert after[e.t] == ThreadAfter(p, w, e);
  }

  /** An orphan stays one until somebody does. */
  lemma {:induction false} OrphanStays(p: Params, w: World, e: Event, k: Key)
    requires Enabled(p, w, e) && Orphan(w, k)
    ensures Orphan(Step(p, w, e), k) <==> !TakesUp(w, e, k)
  {
    hide Enabled, Attended, TakesUp;
    EntryStays(p, w, e, k);
    AttendedNow(p, w, e, k);
    assert Step(p, w, e).locks == LocksAfter(p, w, e);
  }

  /** Somebody takes `k` up in the course of the run. */
  predicate TakenUp(p: Params, w: World, events: seq<Event>, k: Key)
    decreases |events|
  {
    && events != [] && Enabled(p, w, events[0])
    && (TakesUp(w, events[0], k) || TakenUp(p, Step(p, w, events[0]), events[1..], k))
  }

  /** Some step of the run abandons `k`, and nobody takes it up after that. */
  predicate LeftBehind(p: Params, w: World, events: seq<Event>, k: Key)
    decreases |events|
  {
    && events != [] && Enabled(p, w, events[0])
    && var next := Step(p, w, events[0]);
       (Abandons(p, w, events[0], k) && !TakenUp(p, next, events[1..], k)) || LeftBehind(p, next, events[1..], k)
  }

  lemma {:induction false} OrphansExactly(p: Params, w: World, events: seq<Event>, after: World, k: Key)
    requires Reaches(p, w, events, after) && LockInv(w)
    ensures Orphan(after, k) <==> LeftBehind(p, w, events, k) || (Orphan(w, k) && !TakenUp(p, w, events, k))
    decreases |events|
  {
    if events != [] {
      var e := events[0];
      var next := Step(p, w, e);
      StepKeepsLocks(p, w, e);
      OrphansExactly(p, next, events[1..], after, k);
      hide LockInv, Step, Enabled, TakesUp;
      if Orphan(w, k) {
        OrphanStays(p, w, e, k);
        assert !Abandons(p, w, e, k);
      } else {
        LeaksExactly(p, w, e, k);
      }
    }
  }

  /** Once every submission is over, an entry is left in the map exactly when some step
      abandoned it and nobody has taken the pair up since. */
  lemma {:induction false} EntriesLeftExactly(p: Params, events: seq<Event>, w: World, k: Key)
    requires Reaches(p, Empty, events, w)
    requires forall t | 0 <= t < |w.threads| :: Over(w.threads[t])
    ensures k in w.locks.transfers <==> LeftBehind(p, Empty, events, k)
  {
    OrphansExactly(p, Empty, events, w, k);
    assert Orphan(w, k) <==> k in w.locks.transfers;
  }
}
