/** What becomes of the commands still in the channel when the clients hang up. */
module HangUps {
  import opened Core
  import opened Queues
  import opened Dispatchers

  predicate AllDated(q: State) {
    forall i | 0 <= i < |q.entries| :: q.entries[i].deadline.Some?
  }

  // ---- Where the dispatcher cannot be while the clients are there ----

  predicate Attending(w: World) {
    w.open ==> !w.closed && !w.phase.Leaving? && !w.phase.Returned?
  }

  lemma {:induction false} NextAttending(cfg: Config, w: World, e: Event)
    requires Enabled(w, e) && Attending(w)
    ensures Attending(Next(cfg, w, e))
  {
    hide DeskAfter, ChannelAfter, OpsAfter, SubmittingAfter, Pop, GiveUp;
  }

  lemma {:induction false} ReachesAttending(cfg: Config, w: World, events: seq<Event>, after: World)
    requires Attending(w) && Reaches(cfg, w, events, after)
    ensures Attending(after)
    decreases |events|
  {
    if events != [] {
      NextAttending(cfg, w, events[0]);
      hide Next, Enabled, Attending;
      ReachesAttending(cfg, Next(cfg, w, events[0]), events[1..], after);
    }
  }

  // ---- When everything in the channel will be received ----

  /** The clients have gone, and the loop will come back to its channel before it leaves. */
  predicate WillHear(w: World) {
    && !w.open
    && (|| w.channel == []
        || w.phase.Top? || w.phase.Waiting? || w.phase.Draining? || w.phase.InHand? || w.phase.Reaping?
        || (w.phase.Choosing? && !w.closed)
        || ((w.phase.Choosing? || w.phase.Flowing?) && !AllDated(w.desk.queue)))
  }

  /** A task that waits as long as it takes is still there after a sweep. */
  lemma {:induction false} UndatedStays(entries: seq<Entry>, now: int, i: nat)
    requires i < |entries| && entries[i].deadline.None?
    ensures Split(entries, now, false) != []
  {
    if i > 0 { UndatedStays(entries[1..], now, i - 1); }
  }

  lemma {:induction false} PickHears(cfg: Config, w: World, at: int)
    requires WillHear(w) && Enabled(w, Pick(at))
    ensures WillHear(Next(cfg, w, Pick(at)))
  {
    hide OpsAfter, SubmittingAfter;
    var entries := w.desk.queue.entries;
    if !AllDated(w.desk.queue) {
      var i :| 0 <= i < |entries| && entries[i].deadline.None?;
      UndatedStays(entries, at, i);
    }
    assert GiveUp(w.desk, at).queue.entries == Split(entries, at, false);
    hide Split, GiveUp;
  }

  lemma {:induction false} NextHears(cfg: Config, w: World, e: Event)
    requires WillHear(w) && Enabled(w, e)
    ensures WillHear(Next(cfg, w, e))
  {
    if e.Pick? {
      PickHears(cfg, w, e.at);
    } else {
      hide OpsAfter, SubmittingAfter, AdmitOne, AllDated;
      var after := Next(cfg, w, e);
      assert after.desk.queue == w.desk.queue || e.Receive?;
      assert w.channel == [] ==> after.channel == [];
    }
  }

  lemma {:induction false} ReachesHears(cfg: Config, w: World, events: seq<Event>, after: World)
    requires WillHear(w) && Reaches(cfg, w, events, after)
    ensures WillHear(after) && after.sent == w.sent
    decreases |events|
  {
    if events != [] {
      NextHears(cfg, w, events[0]);
      assert !Sends(events[0]);
      assert Next(cfg, w, events[0]).sent == w.sent;
      hide Next, Enabled, WillHear;
      ReachesHears(cfg, Next(cfg, w, events[0]), events[1..], after);
    }
  }

  // ---- When it can leave without ----

  /** Everything `Leaving` needs is behind it: what is out comes back, and it returns. */
  lemma {:induction false} LeavingReturns(cfg: Config, w: World) returns (events: seq<Event>, after: World)
    requires w.phase.Leaving?
    ensures Reaches(cfg, w, events, after) && after.phase.Returned? && after.channel == w.channel
    decreases 3 * |w.submitting| + 2 * w.replied + w.finished
  {
    var e := if Idle(w) then Leave else if w.finished > 0 then Join else if w.replied > 0 then Release else Answer(0);
    var next := Next(cfg, w, e);
    assert next.channel == w.channel;
    if Idle(w) {
      events, after := [], next;
    } else {
      assert next.phase.Leaving?;
      events, after := LeavingReturns(cfg, next);
    }
    hide Next, Enabled;
    ReachesOne(cfg, w, e, events, after);
    events := [e] + events;
  }

  lemma {:induction false} AllExpire(entries: seq<Entry>, now: int) returns (at: int)
    requires forall i | 0 <= i < |entries| :: entries[i].deadline.Some?
    ensures at >= now && Split(entries, at, false) == []
    ensures forall later | later >= at :: Split(entries, later, false) == []
  {
    if entries == [] { return now; }
    at := AllExpire(entries[1..], now);
    var first := entries[0].deadline.value;
    at := if first > at then first else at;
  }

  /** Late enough, every dated task has expired and there is nothing to pick. */
  lemma {:induction false} LatePick(cfg: Config, w: World) returns (events: seq<Event>, after: World)
    requires w.phase.Choosing? && w.closed && AllDated(w.desk.queue)
    ensures Reaches(cfg, w, events, after) && after.phase.Returned? && after.channel == w.channel
  {
    var at := AllExpire(w.desk.queue.entries, w.clock);
    var next := Next(cfg, w, Pick(at));
    assert GiveUp(w.desk, at).queue.entries == [];
    assert next.phase.Leaving? && next.channel == w.channel;
    events, after := LeavingReturns(cfg, next);
    hide Next, Enabled;
    ReachesOne(cfg, w, Pick(at), events, after);
    events := [Pick(at)] + events;
  }

  /** The workflows in hand are finished, the loop sees the clients gone, and leaves. */
  lemma {:induction false} FlowsThenLeaves(cfg: Config, w: World) returns (events: seq<Event>, after: World)
    requires w.phase.Flowing? && !w.open && AllDated(w.desk.queue)
    ensures Reaches(cfg, w, events, after) && after.phase.Returned? && after.channel == w.channel
    decreases |w.phase.left|
  {
    var e := if w.phase.left == [] then FlowsDone else FlowDone;
    var next := Next(cfg, w, e);
    assert next.channel == w.channel && next.desk.queue == w.desk.queue && !next.open;
    if w.phase.left == [] {
      assert next.phase.Choosing? && next.closed;
      events, after := LatePick(cfg, next);
    } else {
      events, after := FlowsThenLeaves(cfg, next);
    }
    hide Next, Enabled;
    ReachesOne(cfg, w, e, events, after);
    events := [e] + events;
  }

  // ---- Exactly when ----

  /** From `w` the dispatcher may return and leave commands in its channel. */
  ghost predicate MayLeaveUnheard(cfg: Config, w: World) {
    exists events, after :: Reaches(cfg, w, events, after) && after.phase.Returned? && after.channel != []
  }

  /** What to look at when the clients hang up: something is in the channel, the loop has
      looked there for the last time and not yet seen that they are gone, and nothing queued
      waits as long as it takes. Workflows run in between, but the window is there without. */
  predicate AtRisk(w: World) {
    w.channel != [] && w.phase.Flowing? && AllDated(w.desk.queue)
  }

  /** A command may go unheard exactly when the clients hang up while the dispatcher is at
      risk. */
  lemma {:induction false} UnheardExactly(cfg: Config, inFlight: nat, clock: int, events: seq<Event>, w: World)
    requires Reaches(cfg, Initial(inFlight, clock), events, w) && w.open
    ensures MayLeaveUnheard(cfg, Next(cfg, w, HangUp)) <==> AtRisk(w)
  {
    ReachesAttending(cfg, Initial(inFlight, clock), events, w);
    var gone := Next(cfg, w, HangUp);
    assert gone == w.(open := false);
    if AtRisk(w) {
      var more, after := FlowsThenLeaves(cfg, gone);
    } else {
      assert WillHear(gone);
      forall more, after | Reaches(cfg, gone, more, after) && after.phase.Returned? ensures after.channel == [] {
        ReachesHears(cfg, gone, more, after);
      }
    }
  }

  lemma {:induction false} ReachesThen(cfg: Config, w: World, first: seq<Event>, mid: World, rest: seq<Event>,
                                       after: World)
    requires Reaches(cfg, w, first, mid) && Reaches(cfg, mid, rest, after)
    ensures Reaches(cfg, w, first + rest, after)
    decreases |first|
  {
    if first == [] {
      assert first + rest == rest;
    } else {
      hide Next, Enabled;
      ReachesThen(cfg, Next(cfg, w, first[0]), first[1..], mid, rest, after);
      assert (first + rest)[1..] == first[1..] + rest;
    }
  }

  /** If they do not, everything ever sent is received, and answered exactly once, in every
      run in which the dispatcher returns. */
  lemma {:induction false} EveryoneHeard(cfg: Config, inFlight: nat, clock: int, events: seq<Event>, w: World,
                                         more: seq<Event>, after: World, req: nat)
    requires Reaches(cfg, Initial(inFlight, clock), events, w) && w.open && !AtRisk(w)
    requires Reaches(cfg, Next(cfg, w, HangUp), more, after) && after.phase.Returned?
    ensures after.sent == w.sent && after.channel == []
    ensures req < w.sent ==> Heard(after.desk)[req] == 1
  {
    ReachesAttending(cfg, Initial(inFlight, clock), events, w);
    var gone := Next(cfg, w, HangUp);
    assert gone == w.(open := false);
    assert WillHear(gone);
    ReachesHears(cfg, gone, more, after);
    hide Next, WillHear;
    ReachesOne(cfg, w, HangUp, more, after);
    ReachesThen(cfg, Initial(inFlight, clock), events, w, [HangUp] + more, after);
    ExactlyOneAnswer(cfg, inFlight, clock, events + ([HangUp] + more), after, req);
  }
}
