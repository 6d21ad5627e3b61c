/** Single flight: at most one transfer of a dataset to a node at a time, and no more
    sends than the catalog forgets. */
module ProtocolLocks {
  import opened Core
  import opened Protocol

  function HasLock(lock: LockId): Thread -> bool {
    (th: Thread) => th.at.Moving? && th.at.lock == lock
  }

  predicate InMap(l: Locks, lock: LockId) {
    exists k | k in l.transfers :: l.transfers[k] == lock
  }

  /** The lock a thread waits for or holds is the one in the map. Only after it has
      released may the map have moved on. */
  predicate Fits(th: Thread, l: Locks) {
    && (th.at.Moving? ==> th.at.lock < l.next)
    && (th.at.Moving? && !th.at.stage.Dropping? ==> KeyOf(th) in l.transfers && l.transfers[KeyOf(th)] == th.at.lock)
  }

  predicate AllFit(w: World) {
    forall t | 0 <= t < |w.threads| :: Fits(w.threads[t], w.locks)
  }

  /** One lock per pair. */
  predicate OneEach(l: Locks) {
    && (forall k | k in l.transfers :: l.transfers[k] < l.next)
    && (forall k, m | k in l.transfers && m in l.transfers && l.transfers[k] == l.transfers[m] :: k == m)
  }

  /** Every reference is accounted for: the map's and one for each handle. */
  predicate Tallied(w: World) {
    forall lock: LockId | lock < w.locks.next ::
      Get(w.locks.strong, lock) == Count(w.threads, HasLock(lock)) + if InMap(w.locks, lock) then 1 else 0
  }

  ghost predicate Exclusive(w: World) {
    forall t, u, lock |
      0 <= t < |w.threads| && 0 <= u < |w.threads| && Owns(w.threads[t], lock) && Owns(w.threads[u], lock) ::
      t == u
  }

  ghost predicate LockInv(w: World) {
    AllPlaced(w) && AllFit(w) && OneEach(w.locks) && Tallied(w) && Exclusive(w)
  }

  // ---- Taking a handle ----

  lemma {:induction false} NoneYet(w: World)
    requires AllFit(w)
    ensures Count(w.threads, HasLock(w.locks.next)) == 0
  {
    CountZero(w.threads, HasLock(w.locks.next));
  }

  lemma {:induction false} TakenFits(l: Locks, k: Key, th: Thread)
    requires Fits(th, l) && OneEach(l)
    ensures Fits(th, Taken(l, k))
  {}

  lemma {:induction false} TakenMap(l: Locks, k: Key, lock: LockId)
    requires OneEach(l)
    ensures OneEach(Taken(l, k)) && InMap(Taken(l, k), LockFor(l, k))
    ensures lock != LockFor(l, k) ==> InMap(Taken(l, k), lock) == InMap(l, lock)
    ensures k in l.transfers ==> InMap(l, LockFor(l, k))
  {
    var after := Taken(l, k);
    assert k in after.transfers && after.transfers[k] == LockFor(l, k);
    if InMap(l, lock) {
      var m :| m in l.transfers && l.transfers[m] == lock;
      assert m in after.transfers && after.transfers[m] == lock;
    }
  }

  lemma {:induction false} WantLockTallies(p: Params, w: World, t: nat)
    requires Enabled(p, w, WantLock(t)) && AllFit(w) && OneEach(w.locks) && Tallied(w)
    ensures Tallied(Step(p, w, WantLock(t))) && OneEach(Step(p, w, WantLock(t)).locks)
  {
    var th, after := w.threads[t], Step(p, w, WantLock(t));
    var k := Key(NodeOf(th), th.inputs[th.at.i]);
    TakenMap(w.locks, k, 0);
    forall lock: LockId | lock < after.locks.next
      ensures Get(after.locks.strong, lock)
           == Count(after.threads, HasLock(lock)) + if InMap(after.locks, lock) then 1 else 0
    {
      TakenMap(w.locks, k, lock);
      CountUpdate(w.threads, t, after.threads[t], HasLock(lock));
      NoneYet(w);
    }
  }

  // ---- Letting go of it ----

  lemma {:induction false} DropTallies(w: World, after: World, t: nat)
    requires t < |w.threads| && w.threads[t].at.Moving? && AllFit(w) && Tallied(w)
    requires |after.threads| == |w.threads| && after.threads == w.threads[t := after.threads[t]]
    requires !after.threads[t].at.Moving?
    requires after.locks == Dropped(w.locks, w.threads[t].at.lock)
    ensures Tallied(after)
  {
    forall lock: LockId | lock < after.locks.next
      ensures Get(after.locks.strong, lock)
           == Count(after.threads, HasLock(lock)) + if InMap(after.locks, lock) then 1 else 0
    {
      CountUpdate(w.threads, t, after.threads[t], HasLock(lock));
      assert InMap(after.locks, lock) == InMap(w.locks, lock);
    }
  }

  /** A release takes the lock out of the map exactly when no other submission has a handle. */
  lemma {:induction false} ReleaseExact(p: Params, w: World, t: nat)
    requires Enabled(p, w, Release(t)) && LockInv(w)
    ensures KeyOf(w.threads[t]) in w.locks.transfers
    ensures KeyOf(w.threads[t]) !in Step(p, w, Release(t)).locks.transfers
       <==> forall u | 0 <= u < |w.threads| && u != t :: !HasLock(w.threads[t].at.lock)(w.threads[u])
  {
    var th := w.threads[t];
    assert InMap(w.locks, th.at.lock);
    CountOne(w.threads, t, HasLock(th.at.lock));
  }

  lemma {:induction false} ReleasedMap(l: Locks, k: Key, lock: LockId)
    requires OneEach(l) && k in l.transfers
    ensures InMap(l.(transfers := l.transfers - {k}), lock) == (InMap(l, lock) && lock != l.transfers[k])
  {
    var after := l.(transfers := l.transfers - {k});
    if InMap(l, lock) && lock != l.transfers[k] {
      var m :| m in l.transfers && l.transfers[m] == lock;
      assert m in after.transfers;
    }
  }

  lemma {:induction false} ReleaseTallies(p: Params, w: World, t: nat)
    requires Enabled(p, w, Release(t)) && LockInv(w)
    ensures Tallied(Step(p, w, Release(t)))
  {
    var th, after := w.threads[t], Step(p, w, Release(t));
    var k := KeyOf(th);
    assert InMap(w.locks, th.at.lock);
    forall lock: LockId | lock < after.locks.next
      ensures Get(after.locks.strong, lock)
           == Count(after.threads, HasLock(lock)) + if InMap(after.locks, lock) then 1 else 0
    {
      CountUpdate(w.threads, t, after.threads[t], HasLock(lock));
      ReleasedMap(w.locks, k, lock);
      assert InMap(after.locks, lock) == InMap(after.locks.(strong := w.locks.strong), lock);
    }
  }

  lemma {:induction false} ReleaseFits(p: Params, w: World, t: nat)
    requires Enabled(p, w, Release(t)) && LockInv(w)
    ensures AllFit(Step(p, w, Release(t)))
  {
    ReleaseExact(p, w, t);
    var k, after := KeyOf(w.threads[t]), Step(p, w, Release(t));
    forall u | 0 <= u < |after.threads| ensures Fits(after.threads[u], after.locks) {
      assert Fits(w.threads[u], w.locks);
      assert Fits(w.threads[t], w.locks);
      if u != t && k !in after.locks.transfers { assert !HasLock(w.threads[t].at.lock)(w.threads[u]); }
    }
  }

  // ---- All steps ----

  /** Steps that neither take nor give up a handle. */
  predicate KeepsHandle(e: Event) {
    Acts(e) && !(e.WantLock? || e.Release? || e.Drop? || e.FailDrop? || e.Cancel?)
  }

  lemma {:induction false} ActKeepsHandle(p: Params, w: World, e: Event)
    requires Enabled(p, w, e) && KeepsHandle(e)
    ensures LocksAfter(p, w, e) == w.locks
    ensures var th, next := w.threads[e.t], ThreadAfter(p, w, e);
            && next.at.Moving? == th.at.Moving?
            && (th.at.Moving? ==> next.at.lock == th.at.lock && KeyOf(next) == KeyOf(th))
            && (th.at.Moving? ==> !next.at.stage.Dropping? && !th.at.stage.Dropping?)
  {}

  lemma {:induction false} QuietTallies(w: World, after: World, t: nat)
    requires t < |w.threads| && Tallied(w) && after.locks == w.locks
    requires |after.threads| == |w.threads| && after.threads == w.threads[t := after.threads[t]]
    requires after.threads[t].at.Moving? == w.threads[t].at.Moving?
    requires w.threads[t].at.Moving? ==> after.threads[t].at.lock == w.threads[t].at.lock
    ensures Tallied(after)
  {
    forall lock: LockId | lock < after.locks.next
      ensures Count(after.threads, HasLock(lock)) == Count(w.threads, HasLock(lock))
    {
      CountUpdate(w.threads, t, after.threads[t], HasLock(lock));
    }
  }

  lemma {:induction false} StartTallies(w: World, after: World)
    requires Tallied(w) && after.locks == w.locks
    requires after.threads == w.threads || exists th: Thread :: !th.at.Moving? && after.threads == w.threads + [th]
    ensures Tallied(after)
  {
    if after.threads != w.threads {
      var th: Thread :| !th.at.Moving? && after.threads == w.threads + [th];
      forall lock: LockId | lock < after.locks.next
        ensures Count(after.threads, HasLock(lock)) == Count(w.threads, HasLock(lock))
      {
        CountAppend(w.threads, th, HasLock(lock));
      }
    }
  }

  lemma {:induction false} StepOneEach(p: Params, w: World, e: Event)
    requires Enabled(p, w, e) && OneEach(w.locks)
    ensures OneEach(Step(p, w, e).locks)
  {
    if e.WantLock? {
      var th := w.threads[e.t];
      TakenMap(w.locks, Key(NodeOf(th), th.inputs[th.at.i]), 0);
    }
    hide Taken;
  }

  lemma {:induction false} StepTallies(p: Params, w: World, e: Event)
    requires Enabled(p, w, e) && LockInv(w)
    ensures Tallied(Step(p, w, e))
  {
    hide Tallied, Exclusive, OneEach, AllPlaced;
    hide QueuedAfter, StoresAfter, ForgetsAfter, SendsAfter, ExecutingAfter, InFlightAfter, LibraryAfter, Learned, Gone;
    var after := Step(p, w, e);
    if KeepsHandle(e) {
      ActKeepsHandle(p, w, e);
      QuietTallies(w, after, e.t);
    } else if e.WantLock? {
      WantLockTallies(p, w, e.t);
    } else if e.Release? {
      ReleaseTallies(p, w, e.t);
    } else if !Acts(e) {
      StartTallies(w, after);
    } else if w.threads[e.t].at.Moving? {
      DropTallies(w, after, e.t);
    } else {
      QuietTallies(w, after, e.t);
    }
  }

  lemma {:induction false} ActFits(p: Params, w: World, e: Event, u: nat)
    requires Enabled(p, w, e) && Acts(e) && !e.Release? && u < |w.threads| && OneEach(w.locks)
    requires Fits(w.threads[u], w.locks) && Fits(w.threads[e.t], w.locks)
    ensures Fits(ThreadsAfter(p, w, e)[u], LocksAfter(p, w, e))
  {
    if e.WantLock? {
      TakenFits(w.locks, Key(NodeOf(w.threads[e.t]), w.threads[e.t].inputs[w.threads[e.t].at.i]), w.threads[u]);
    } else if KeepsHandle(e) {
      ActKeepsHandle(p, w, e);
    }
  }

  lemma {:induction false} StepFits(p: Params, w: World, e: Event)
    requires Enabled(p, w, e) && LockInv(w)
    ensures AllFit(Step(p, w, e))
  {
    hide QueuedAfter, StoresAfter, ForgetsAfter, SendsAfter, ExecutingAfter, InFlightAfter, LibraryAfter, Learned, Gone;
    if e.Release? {
      ReleaseFits(p, w, e.t);
    } else if Acts(e) {
      forall u | 0 <= u < |w.threads| ensures Fits(ThreadsAfter(p, w, e)[u], LocksAfter(p, w, e)) {
        ActFits(p, w, e, u);
      }
      hide ThreadsAfter, LocksAfter;
    }
  }

  /** Nobody comes to own a lock but by locking it. */
  lemma {:induction false} ActOwns(p: Params, w: World, e: Event, lock: LockId)
    requires Enabled(p, w, e) && Acts(e) && !e.Lock? && Owns(ThreadAfter(p, w, e), lock)
    ensures Owns(w.threads[e.t], lock)
  {}

  lemma {:induction false} StepExclusive(p: Params, w: World, e: Event)
    requires Enabled(p, w, e) && Exclusive(w)
    ensures Exclusive(Step(p, w, e))
  {
    var after := Step(p, w, e);
    forall t, u, lock |
      && 0 <= t < |after.threads| && 0 <= u < |after.threads|
      && Owns(after.threads[t], lock) && Owns(after.threads[u], lock)
      ensures t == u
    {
      if Acts(e) && !e.Lock? && Owns(after.threads[e.t], lock) { ActOwns(p, w, e, lock); }
    }
  }

  lemma {:induction false} StepKeepsLocks(p: Params, w: World, e: Event)
    requires Enabled(p, w, e) && LockInv(w)
    ensures LockInv(Step(p, w, e))
  {
    hide AllPlaced, AllFit, OneEach, Tallied, Exclusive, Step, Enabled;
    StepPlaced(p, w, e);
    StepFits(p, w, e);
    StepTallies(p, w, e);
    StepOneEach(p, w, e);
    StepExclusive(p, w, e);
  }

  lemma {:induction false} ReachesKeepsLocks(p: Params, w: World, events: seq<Event>, after: World)
    requires LockInv(w) && Reaches(p, w, events, after)
    ensures LockInv(after)
    decreases |events|
  {
    if events != [] {
      StepKeepsLocks(p, w, events[0]);
      ReachesKeepsLocks(p, Step(p, w, events[0]), events[1..], after);
    }
  }

  /** Holding the lock of the pair it is concerned with. */
  predicate InTransfer(th: Thread) {
    th.at.Moving? && Owns(th, th.at.lock)
  }

  /** Under every interleaving: the lock a submission waits for or holds is the one the
      map has for its pair, and no two submissions transfer the same pair at once. */
  lemma {:induction false} SingleFlight(p: Params, events: seq<Event>, w: World)
    requires Reaches(p, Empty, events, w)
    ensures AllFit(w)
    ensures forall t, u | 0 <= t < u < |w.threads| && InTransfer(w.threads[t]) && InTransfer(w.threads[u]) ::
              KeyOf(w.threads[t]) != KeyOf(w.threads[u])
  {
    ReachesKeepsLocks(p, Empty, events, w);
    forall t, u | 0 <= t < u < |w.threads| && InTransfer(w.threads[t]) && InTransfer(w.threads[u])
      ensures KeyOf(w.threads[t]) != KeyOf(w.threads[u])
    {
      assert Fits(w.threads[t], w.locks) && Fits(w.threads[u], w.locks);
    }
  }
}
