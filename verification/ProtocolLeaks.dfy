/** Two runs that leave a lock in the map with nobody to use it. Each is a table of
    scenes, and the event that leads from one to the next. */
module ProtocolLeaks {
  import opened Core
  import opened Protocol
  import opened ProtocolLocks
  import opened ProtocolTransfers

  /** The part of a world these runs depend on. */
  datatype Scene = Scene(threads: seq<Thread>, locks: Locks, catalog: set<Key>, library: set<DataId>)

  const Nobody := Locks(map[], map[], 0)

  function Held(n: Node, d: DataId, references: nat): Locks {
    Locks(map[Key(n, d) := 0], map[0 := references], 1)
  }

  function Pair(d: DataId, n: Node, first: Place, second: Place): seq<Thread> {
    [Thread([d], first, [n]), Thread([d], second, [n])]
  }

  predicate Shows(w: World, s: Scene) {
    Scene(w.threads, w.locks, w.catalog, w.library) == s
  }

  predicate Follows(p: Params, w: World, e: Event, s: Scene)
    requires Enabled(p, w, e)
  {
    && ThreadsAfter(p, w, e) == s.threads && LocksAfter(p, w, e) == s.locks
    && w.catalog - Gone(p, w, e) + Learned(p, w, e) == s.catalog && LibraryAfter(p, w, e) == s.library
  }

  lemma {:induction false} ReachesMore(p: Params, w: World, events: seq<Event>, after: World, e: Event)
    requires Reaches(p, w, events, after) && Enabled(p, after, e)
    ensures Reaches(p, w, events + [e], Step(p, after, e))
    decreases |events|
  {
    if events == [] {
      assert Reaches(p, Step(p, w, e), [e][1..], Step(p, w, e));
    } else {
      ReachesMore(p, Step(p, w, events[0]), events[1..], after, e);
      assert (events + [e])[1..] == events[1..] + [e];
    }
  }

  lemma {:induction false} StepShows(p: Params, w: World, e: Event, s: Scene)
    requires Enabled(p, w, e) && Follows(p, w, e, s)
    ensures Shows(Step(p, w, e), s)
  {}

  // ---- A missing input ----

  function Missing(n: Node, d: DataId, i: nat): (Scene, Event) {
    match i
    case 0 => (Scene([], Nobody, {}, {}), Start([d]))
    case 1 => (Scene([Thread([d], Choosing, [])], Nobody, {}, {}), Choose(0, Some(n)))
    case 2 => (Scene([Thread([d], Next(0), [n])], Nobody, {}, {}), WantLock(0))
    case 3 => (Scene([Thread([d], Moving(0, 0, Waiting), [n])], Held(n, d, 2), {}, {}), Lock(0))
    case 4 => (Scene([Thread([d], Moving(0, 0, Holding), [n])], Held(n, d, 2), {}, {}), Check(0))
    case 5 => (Scene([Thread([d], Moving(0, 0, Failing(Hopeless)), [n])], Held(n, d, 2), {}, {}), FailUnlock(0))
    case 6 => (Scene([Thread([d], Moving(0, 0, FailDropping(Hopeless)), [n])], Held(n, d, 2), {}, {}), FailDrop(0))
    case 7 => (Scene([Thread([d], Landed(Failure(Hopeless)), [n])], Held(n, d, 1), {}, {}), CountDown(0))
    case 8 => (Scene([Thread([d], Deciding(Failure(Hopeless)), [n])], Held(n, d, 1), {}, {}), Decide(0))
    case _ => (Scene([Thread([d], Done, [n])], Held(n, d, 1), {}, {}), Publish(d))
  }

  lemma {:induction false} MissingEarly(p: Params, w: World, n: Node, d: DataId, i: nat)
    requires p.maxAttempts > 0 && n in p.nodes && 0 <= i < 5 && Shows(w, Missing(n, d, i).0)
    ensures Enabled(p, w, Missing(n, d, i).1) && Follows(p, w, Missing(n, d, i).1, Missing(n, d, i + 1).0)
  {
    assert [] + [n] == [n];
  }

  lemma {:induction false} MissingLate(p: Params, w: World, n: Node, d: DataId, i: nat)
    requires p.maxAttempts > 0 && n in p.nodes && 5 <= i < 9 && Shows(w, Missing(n, d, i).0)
    ensures Enabled(p, w, Missing(n, d, i).1) && Follows(p, w, Missing(n, d, i).1, Missing(n, d, i + 1).0)
  {
    assert [] + [n] == [n];
  }

  lemma {:induction false} MissingRun(p: Params, n: Node, d: DataId, i: nat) returns (events: seq<Event>, w: World)
    requires p.maxAttempts > 0 && n in p.nodes && i <= 9
    ensures Reaches(p, Empty, events, w) && Shows(w, Missing(n, d, i).0)
  {
    if i == 0 { return [], Empty; }
    events, w := MissingRun(p, n, d, i - 1);
    var e := Missing(n, d, i - 1).1;
    if i <= 5 { MissingEarly(p, w, n, d, i - 1); } else { MissingLate(p, w, n, d, i - 1); }
    hide Missing, Enabled;
    ReachesMore(p, Empty, events, w, e);
    events, w := events + [e], Step(p, w, e);
  }

  /** A submission whose input the controller does not have ends, and its lock stays. */
  lemma {:induction false} MissingInputLeaks(p: Params, n: Node, d: DataId) returns (events: seq<Event>, w: World)
    requires p.maxAttempts > 0 && n in p.nodes
    ensures Reaches(p, Empty, events, w) && (forall t | 0 <= t < |w.threads| :: Over(w.threads[t]))
    ensures w.locks.transfers == map[Key(n, d) := 0]
  {
    events, w := MissingRun(p, n, d, 9);
    hide Reaches;
  }

  // ---- Releases that cross ----

  function Crossing(n: Node, d: DataId, i: nat): (Scene, Event) {
    match i
    case 0 => (Scene([], Nobody, {}, {}), Publish(d))
    case 1 => (Scene([], Nobody, {}, {d}), Start([d]))
    case 2 => (Scene([Thread([d], Choosing, [])], Nobody, {}, {d}), Start([d]))
    case 3 => (Scene([Thread([d], Choosing, []), Thread([d], Choosing, [])], Nobody, {}, {d}), Choose(0, Some(n)))
    case 4 => (Scene([Thread([d], Next(0), [n]), Thread([d], Choosing, [])], Nobody, {}, {d}), Choose(1, Some(n)))
    case 5 => (Scene(Pair(d, n, Next(0), Next(0)), Nobody, {}, {d}), WantLock(0))
    case 6 => (Scene(Pair(d, n, Moving(0, 0, Waiting), Next(0)), Held(n, d, 2), {}, {d}), WantLock(1))
    case 7 => (Scene(Pair(d, n, Moving(0, 0, Waiting), Moving(0, 0, Waiting)), Held(n, d, 3), {}, {d}), Lock(0))
    case 8 => (Scene(Pair(d, n, Moving(0, 0, Holding), Moving(0, 0, Waiting)), Held(n, d, 3), {}, {d}), Check(0))
    case 9 => (Scene(Pair(d, n, Moving(0, 0, Sending), Moving(0, 0, Waiting)), Held(n, d, 3), {}, {d}), SendWhole(0))
    case 10 => (Scene(Pair(d, n, Moving(0, 0, Sent), Moving(0, 0, Waiting)), Held(n, d, 3), {}, {d}), Record(0))
    case 11 => (Scene(Pair(d, n, Moving(0, 0, Unlocking), Moving(0, 0, Waiting)), Held(n, d, 3), {Key(n, d)}, {d}), Unlock(0))
    case 12 => (Scene(Pair(d, n, Moving(0, 0, Releasing), Moving(0, 0, Waiting)), Held(n, d, 3), {Key(n, d)}, {d}), Release(0))
    case 13 => (Scene(Pair(d, n, Moving(0, 0, Dropping), Moving(0, 0, Waiting)), Held(n, d, 3), {Key(n, d)}, {d}), Lock(1))
    case 14 => (Scene(Pair(d, n, Moving(0, 0, Dropping), Moving(0, 0, Holding)), Held(n, d, 3), {Key(n, d)}, {d}), Skip(1))
    case 15 => (Scene(Pair(d, n, Moving(0, 0, Dropping), Moving(0, 0, Unlocking)), Held(n, d, 3), {Key(n, d)}, {d}), Unlock(1))
    case 16 => (Scene(Pair(d, n, Moving(0, 0, Dropping), Moving(0, 0, Releasing)), Held(n, d, 3), {Key(n, d)}, {d}), Release(1))
    case 17 => (Scene(Pair(d, n, Moving(0, 0, Dropping), Moving(0, 0, Dropping)), Held(n, d, 3), {Key(n, d)}, {d}), Drop(0))
    case 18 => (Scene(Pair(d, n, Next(1), Moving(0, 0, Dropping)), Held(n, d, 2), {Key(n, d)}, {d}), Drop(1))
    case _ => (Scene(Pair(d, n, Next(1), Next(1)), Held(n, d, 1), {Key(n, d)}, {d}), Publish(d))
  }

  lemma {:induction false} CrossingStarts(p: Params, w: World, n: Node, d: DataId, i: nat)
    requires p.maxAttempts > 0 && n in p.nodes && p.reuse && 0 <= i < 3 && Shows(w, Crossing(n, d, i).0)
    ensures Enabled(p, w, Crossing(n, d, i).1) && Follows(p, w, Crossing(n, d, i).1, Crossing(n, d, i + 1).0)
  {
    assert [] + [n] == [n];
  }

  lemma {:induction false} CrossingChooses(p: Params, w: World, n: Node, d: DataId, i: nat)
    requires p.maxAttempts > 0 && n in p.nodes && p.reuse && 3 <= i < 6 && Shows(w, Crossing(n, d, i).0)
    ensures Enabled(p, w, Crossing(n, d, i).1) && Follows(p, w, Crossing(n, d, i).1, Crossing(n, d, i + 1).0)
  {
    assert [] + [n] == [n];
  }

  lemma {:induction false} CrossingLocks(p: Params, w: World, n: Node, d: DataId, i: nat)
    requires p.maxAttempts > 0 && n in p.nodes && p.reuse && 6 <= i < 8 && Shows(w, Crossing(n, d, i).0)
    ensures Enabled(p, w, Crossing(n, d, i).1) && Follows(p, w, Crossing(n, d, i).1, Crossing(n, d, i + 1).0)
  {
    assert [] + [n] == [n];
  }

  lemma {:induction false} CrossingSends(p: Params, w: World, n: Node, d: DataId, i: nat)
    requires p.maxAttempts > 0 && n in p.nodes && p.reuse && 8 <= i < 11 && Shows(w, Crossing(n, d, i).0)
    ensures Enabled(p, w, Crossing(n, d, i).1) && Follows(p, w, Crossing(n, d, i).1, Crossing(n, d, i + 1).0)
  {
    assert [] + [n] == [n];
  }

  lemma {:induction false} CrossingReleases(p: Params, w: World, n: Node, d: DataId, i: nat)
    requires p.maxAttempts > 0 && n in p.nodes && p.reuse && 11 <= i < 13 && Shows(w, Crossing(n, d, i).0)
    ensures Enabled(p, w, Crossing(n, d, i).1) && Follows(p, w, Crossing(n, d, i).1, Crossing(n, d, i + 1).0)
  {
    assert [] + [n] == [n];
  }

  lemma {:induction false} CrossingSkips(p: Params, w: World, n: Node, d: DataId, i: nat)
    requires p.maxAttempts > 0 && n in p.nodes && p.reuse && 13 <= i < 15 && Shows(w, Crossing(n, d, i).0)
    ensures Enabled(p, w, Crossing(n, d, i).1) && Follows(p, w, Crossing(n, d, i).1, Crossing(n, d, i + 1).0)
  {
    assert [] + [n] == [n];
  }

  lemma {:induction false} CrossingDrops(p: Params, w: World, n: Node, d: DataId, i: nat)
    requires p.maxAttempts > 0 && n in p.nodes && p.reuse && 15 <= i < 17 && Shows(w, Crossing(n, d, i).0)
    ensures Enabled(p, w, Crossing(n, d, i).1) && Follows(p, w, Crossing(n, d, i).1, Crossing(n, d, i + 1).0)
  {
    assert [] + [n] == [n];
  }

  lemma {:induction false} CrossingEnds(p: Params, w: World, n: Node, d: DataId, i: nat)
    requires p.maxAttempts > 0 && n in p.nodes && p.reuse && 17 <= i < 19 && Shows(w, Crossing(n, d, i).0)
    ensures Enabled(p, w, Crossing(n, d, i).1) && Follows(p, w, Crossing(n, d, i).1, Crossing(n, d, i + 1).0)
  {
    assert [] + [n] == [n];
  }

  lemma {:induction false} CrossingStep(p: Params, w: World, n: Node, d: DataId, i: nat)
    requires p.maxAttempts > 0 && n in p.nodes && p.reuse && i < 19 && Shows(w, Crossing(n, d, i).0)
    ensures Enabled(p, w, Crossing(n, d, i).1) && Follows(p, w, Crossing(n, d, i).1, Crossing(n, d, i + 1).0)
  {
    hide Crossing, Shows, Enabled, Follows;
    if i < 3 { CrossingStarts(p, w, n, d, i); }
    else if i < 6 { CrossingChooses(p, w, n, d, i); }
    else if i < 8 { CrossingLocks(p, w, n, d, i); }
    else if i < 11 { CrossingSends(p, w, n, d, i); }
    else if i < 13 { CrossingReleases(p, w, n, d, i); }
    else if i < 15 { CrossingSkips(p, w, n, d, i); }
    else if i < 17 { CrossingDrops(p, w, n, d, i); }
    else { CrossingEnds(p, w, n, d, i); }
  }

  lemma {:induction false} CrossingSmooth(n: Node, d: DataId, i: nat)
    ensures !Crossing(n, d, i).1.FailDrop? && !Crossing(n, d, i).1.Cancel?
  {}

  lemma {:induction false} CrossingRun(p: Params, n: Node, d: DataId, i: nat) returns (events: seq<Event>, w: World)
    requires p.maxAttempts > 0 && n in p.nodes && p.reuse && i <= 19
    ensures Reaches(p, Empty, events, w) && Shows(w, Crossing(n, d, i).0)
    ensures forall j | 0 <= j < |events| :: !events[j].FailDrop? && !events[j].Cancel?
  {
    if i == 0 { return [], Empty; }
    hide Crossing, Enabled, Follows;
    events, w := CrossingRun(p, n, d, i - 1);
    var e := Crossing(n, d, i - 1).1;
    CrossingSmooth(n, d, i - 1);
    CrossingStep(p, w, n, d, i - 1);
    ReachesMore(p, Empty, events, w, e);
    StepShows(p, w, e, Crossing(n, d, i).0);
    events, w := events + [e], Step(p, w, e);
  }

  /** Two submissions both get their input across, with no error and nobody cancelled, and
      the lock stays in the map: each counts the other's handle, which is about to go. */
  lemma {:induction false} CrossingReleasesLeak(p: Params, n: Node, d: DataId) returns (events: seq<Event>, w: World)
    requires p.maxAttempts > 0 && n in p.nodes && p.reuse
    ensures Reaches(p, Empty, events, w) && w.threads == Pair(d, n, Next(1), Next(1)) && Orphan(w, Key(n, d))
    ensures forall j | 0 <= j < |events| :: !events[j].FailDrop? && !events[j].Cancel?
  {
    events, w := CrossingRun(p, n, d, 19);
    hide Reaches;
  }
}
