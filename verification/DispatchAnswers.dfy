/** Which answer everybody gets: the command they sent and what became of it in the queue
    decide it. */
module DispatchAnswers {
  import opened Core
  import opened Queues
  import opened QueueRuns
  import opened Dispatchers

  // ---- Who was told what ----

  /** The requests answered `a`, in the order they were. */
  function Given(replies: seq<Reply>, a: Answer): seq<nat> {
    if replies == [] then []
    else
      var last := |replies| - 1;
      Given(replies[..last], a) + if replies[last].answer == a then [replies[last].req] else []
  }

  lemma {:induction false} GivenIn(replies: seq<Reply>, a: Answer, req: nat)
    ensures Reply(req, a) in replies <==> req in Given(replies, a)
    decreases |replies|
  {
    if replies != [] {
      var last := |replies| - 1;
      GivenIn(replies[..last], a, req);
      assert replies == replies[..last] + [replies[last]];
    }
  }

  lemma {:induction false} GivenHeard(replies: seq<Reply>, a: Answer, req: nat)
    ensures multiset(Given(replies, a))[req] <= multiset(Asked(replies))[req]
    decreases |replies|
  {
    if replies != [] {
      var last := |replies| - 1;
      var init, r := replies[..last], replies[last];
      GivenHeard(init, a, req);
      assert Asked(replies) == Asked(init) + [r.req];
      assert Given(replies, a) == Given(init, a) + if r.answer == a then [r.req] else [];
      hide Asked, Given;
    }
  }

  lemma {:induction false} GivenOne(replies: seq<Reply>, r: Reply, a: Answer)
    ensures Given(replies + [r], a) == Given(replies, a) + if r.answer == a then [r.req] else []
  {
    assert (replies + [r])[..|replies|] == replies;
  }

  /** Everyone given up on is told so, and nobody is told anything else. */
  lemma {:induction false} GivenLate(replies: seq<Reply>, gone: seq<Entry>, a: Answer)
    ensures Given(replies + TooLate(gone), a)
         == Given(replies, a) + if a == TimedOut then Payloads(gone) else []
    decreases |gone|
  {
    hide Given;
    if gone == [] {
      assert replies + TooLate(gone) == replies;
    } else {
      var init, e := gone[..|gone| - 1], gone[|gone| - 1];
      GivenLate(replies, init, a);
      assert replies + TooLate(gone) == replies + TooLate(init) + [Reply(e.payload, TimedOut)];
      GivenOne(replies + TooLate(init), Reply(e.payload, TimedOut), a);
      assert Payloads(gone) == Payloads(init) + [e.payload];
      hide TooLate, Payloads;
    }
  }

  // ---- Who asked what ----

  /** What a client's event puts in the channel as request `n`. */
  function Asks(e: Event, n: nat): seq<Command> {
    match e
    case SendSubmit(task, timeout) => [Submit(n, task, timeout)]
    case SendFlow => [Flow(n)]
    case SendRead => [Read(n)]
    case _ => []
  }

  /** Everything the clients sent, numbered from `n`. */
  function Sent(events: seq<Event>, n: nat): seq<Command>
    decreases |events|
  {
    if events == [] then [] else Asks(events[0], n) + Sent(events[1..], n + |Asks(events[0], n)|)
  }

  function FlowsIn(cs: seq<Command>): seq<nat> {
    if cs == [] then []
    else FlowsIn(cs[..|cs| - 1]) + if cs[|cs| - 1].Flow? then [cs[|cs| - 1].req] else []
  }

  function ReadsIn(cs: seq<Command>): seq<nat> {
    if cs == [] then []
    else ReadsIn(cs[..|cs| - 1]) + if cs[|cs| - 1].Read? then [cs[|cs| - 1].req] else []
  }

  /** What is asked of the queue, and by whom. */
  datatype Submission = Submission(req: nat, task: Task, timeout: Option<nat>)

  function SubmitsIn(cs: seq<Command>): seq<Submission> {
    if cs == [] then []
    else
      var c := cs[|cs| - 1];
      SubmitsIn(cs[..|cs| - 1]) + if c.Submit? then [Submission(c.req, c.task, c.timeout)] else []
  }

  function OffersIn(ops: seq<Op>): seq<Submission> {
    if ops == [] then []
    else
      var op := ops[|ops| - 1];
      OffersIn(ops[..|ops| - 1]) + if op.Offer? then [Submission(op.payload, op.task, op.timeout)] else []
  }

  lemma {:induction false} OneCommand(cs: seq<Command>, c: Command)
    ensures FlowsIn(cs + [c]) == FlowsIn(cs) + if c.Flow? then [c.req] else []
    ensures ReadsIn(cs + [c]) == ReadsIn(cs) + if c.Read? then [c.req] else []
    ensures SubmitsIn(cs + [c]) == SubmitsIn(cs) + if c.Submit? then [Submission(c.req, c.task, c.timeout)] else []
  {
    assert (cs + [c])[..|cs|] == cs;
  }

  lemma {:induction false} OneOp(ops: seq<Op>, op: Op)
    ensures OffersIn(ops + [op])
         == OffersIn(ops) + if op.Offer? then [Submission(op.payload, op.task, op.timeout)] else []
  {
    assert (ops + [op])[..|ops|] == ops;
  }

  lemma {:induction false} CommandsCounted(cs: seq<Command>, req: nat)
    requires forall i | 0 <= i < |cs| :: cs[i].req == i
    ensures req in FlowsIn(cs) <==> req < |cs| && cs[req].Flow?
    ensures req in ReadsIn(cs) <==> req < |cs| && cs[req].Read?
    decreases |cs|
  {
    if cs != [] {
      var last := |cs| - 1;
      CommandsCounted(cs[..last], req);
      assert req < last ==> cs[..last][req] == cs[req];
    }
  }

  // ---- The books ----

  /** `log` is what was sent so far: the first of it received, the rest in the channel. */
  predicate Logged(w: World, log: seq<Command>) {
    && |w.received| <= |log| == w.sent
    && w.channel == log[|w.received|..]
    && (forall i | 0 <= i < |log| :: log[i].req == i)
  }

  function InHandOf(p: Phase): multiset<nat> {
    if p.InHand? then multiset{p.entry.payload} else multiset{}
  }

  /** Taken and not answered yet: out, or in hand. */
  function TakenLeft(w: World): multiset<nat> {
    multiset(w.submitting) + InHandOf(w.phase)
  }

  function FlowingOf(p: Phase): seq<nat> {
    if p.Flowing? then p.left else []
  }

  /** Workflows not through yet, the next one first. */
  function FlowsLeft(w: World): seq<nat> {
    FlowingOf(w.phase) + w.desk.flows
  }

  function TurnedAway(refused: seq<Turned>): seq<nat> {
    seq(|refused|, i requires 0 <= i < |refused| => refused[i].payload)
  }

  /** What the queue did is what its clients are told, of those given up on in its order. */
  predicate QueueTold(run: Run, w: World) {
    && Given(w.desk.replies, TimedOut) == Payloads(run.expired)
    && multiset(Given(w.desk.replies, Full))
       == multiset(TurnedAway(run.refused)) + multiset(Payloads(DroppedEntries(run.displaced)))
    && multiset(Given(w.desk.replies, Result)) + TakenLeft(w) == multiset(Payloads(run.taken))
  }

  /** So is what was asked, workflows and reads each in the order they came. */
  predicate CommandsTold(w: World, received: seq<Command>) {
    && Given(w.desk.replies, Report) + FlowsLeft(w) == FlowsIn(received)
    && Given(w.desk.replies, Facts) == ReadsIn(received)
    && OffersIn(w.ops) == SubmitsIn(received)
  }

  ghost predicate Books(cfg: Config, w: World, log: seq<Command>) {
    && Tracks(cfg, w) && Logged(w, log)
    && QueueTold(RunFrom(cfg, Nothing, w.ops), w) && CommandsTold(w, log[..|w.received|])
  }

  // ---- Every step keeps them ----

  lemma {:induction false} NextLogged(cfg: Config, w: World, e: Event, log: seq<Command>)
    requires Enabled(w, e) && Logged(w, log)
    ensures Logged(Next(cfg, w, e), log + Asks(e, |log|))
    ensures e.Receive? ==> Asks(e, |log|) == [] && |w.received| < |log| && w.channel[0] == log[|w.received|]
  {
    hide PhaseAfter, DeskAfter, OpsAfter, SubmittingAfter;
    var after, more := Next(cfg, w, e), log + Asks(e, |log|);
    assert after.channel == ChannelAfter(w, e);
    assert log + [] == log;
    assert after.channel == more[|after.received|..];
  }

  /** One person is told that there is no room, and nobody anything else. */
  predicate FullTo(before: seq<Reply>, after: seq<Reply>, req: nat) {
    after == before + [Reply(req, Full)]
  }

  lemma {:induction false} GivenFull(before: seq<Reply>, after: seq<Reply>, req: nat, a: Answer)
    requires FullTo(before, after, req)
    ensures Given(after, a) == Given(before, a) + if a == Full then [req] else []
  {
    GivenOne(before, Reply(req, Full), a);
  }

  /** The three answers the queue has anything to do with. */
  lemma {:induction false} FullOnly(before: seq<Reply>, after: seq<Reply>, req: nat)
    requires FullTo(before, after, req)
    ensures Given(after, TimedOut) == Given(before, TimedOut) && Given(after, Result) == Given(before, Result)
    ensures Given(after, Full) == Given(before, Full) + [req]
  {
    hide Given;
    GivenFull(before, after, req, TimedOut);
    GivenFull(before, after, req, Result);
    GivenFull(before, after, req, Full);
  }

  lemma {:induction false} RefusedTold(w: World, after: World, run: Run, req: nat, task: Task, at: int)
    requires QueueTold(run, w) && FullTo(w.desk.replies, after.desk.replies, req)
    requires after.submitting == w.submitting && InHandOf(after.phase) == InHandOf(w.phase)
    ensures QueueTold(run.(refused := run.refused + [Turned(task, req, at)]), after)
  {
    hide Given, InHandOf, Payloads, FullTo;
    FullOnly(w.desk.replies, after.desk.replies, req);
    assert TurnedAway(run.refused + [Turned(task, req, at)]) == TurnedAway(run.refused) + [req];
    hide TurnedAway;
  }

  lemma {:induction false} DisplacedTold(w: World, after: World, run: Run, e: Entry, at: int)
    requires QueueTold(run, w) && FullTo(w.desk.replies, after.desk.replies, e.payload)
    requires after.submitting == w.submitting && InHandOf(after.phase) == InHandOf(w.phase)
    ensures QueueTold(run.(displaced := run.displaced + [Dropped(e, at)]), after)
  {
    hide Given, InHandOf, Payloads, FullTo, TurnedAway;
    FullOnly(w.desk.replies, after.desk.replies, e.payload);
    assert DroppedEntries(run.displaced + [Dropped(e, at)]) == DroppedEntries(run.displaced) + [e];
    hide DroppedEntries;
    PayloadsAppend(DroppedEntries(run.displaced), e);
  }

  /** An offer: whoever finds no room is told that. */
  lemma {:induction false} OfferTold(cfg: Config, w: World, after: World, run: Run, c: Command, at: int)
    requires QueueTold(run, w) && run.q == w.desk.queue && c.Submit?
    requires after.desk == AdmitOne(cfg, w.desk, c, at)
    requires after.submitting == w.submitting && InHandOf(after.phase) == InHandOf(w.phase)
    ensures QueueTold(Apply(cfg, run, Offer(at, c.task, c.req, c.timeout)), after)
  {
    var (q, answer) := Push(cfg, w.desk.queue, c.task, c.req, at, c.timeout);
    if answer.Refused? { RefusedIsAsker(cfg, w.desk.queue, c, at); }
    hide Push, InHandOf, Given;
    match answer
    case Queued =>
    case Refused(task, payload) => RefusedTold(w, after, run, c.req, c.task, at);
    case Displaced(e) => DisplacedTold(w, after, run, e, at);
  }

  /** Nobody is told of a workflow or a read by it. */
  lemma {:induction false} OfferSilent(cfg: Config, d: Desk, c: Command, at: int)
    requires c.Submit?
    ensures var after := AdmitOne(cfg, d, c, at);
            && Given(after.replies, Report) == Given(d.replies, Report)
            && Given(after.replies, Facts) == Given(d.replies, Facts) && after.flows == d.flows
  {
    var (q, answer) := Push(cfg, d.queue, c.task, c.req, at, c.timeout);
    hide Push, Given;
    match answer
    case Queued =>
    case Refused(_, payload) =>
      GivenOne(d.replies, Reply(payload, Full), Report);
      GivenOne(d.replies, Reply(payload, Full), Facts);
    case Displaced(e) =>
      GivenOne(d.replies, Reply(e.payload, Full), Report);
      GivenOne(d.replies, Reply(e.payload, Full), Facts);
  }

  lemma {:induction false} RefusedIsAsker(cfg: Config, q: State, c: Command, at: int)
    requires c.Submit? && Push(cfg, q, c.task, c.req, at, c.timeout).1.Refused?
    ensures Push(cfg, q, c.task, c.req, at, c.timeout).1.payload == c.req
  {}

  /** What a command adds to the operations. */
  function OpsFor(c: Command, at: int): seq<Op> {
    if c.Submit? then [Offer(at, c.task, c.req, c.timeout)] else []
  }

  lemma {:induction false} SubmitTold(cfg: Config, w: World, after: World, run: Run, cs: seq<Command>, c: Command,
                                      at: int)
    requires QueueTold(run, w) && CommandsTold(w, cs) && c.Submit? && run.q == w.desk.queue
    requires after.desk == AdmitOne(cfg, w.desk, c, at) && after.ops == w.ops + OpsFor(c, at)
    requires after.submitting == w.submitting
    requires InHandOf(after.phase) == InHandOf(w.phase) && FlowingOf(after.phase) == FlowingOf(w.phase)
    ensures QueueTold(Apply(cfg, run, Offer(at, c.task, c.req, c.timeout)), after) && CommandsTold(after, cs + [c])
  {
    hide Given, OffersIn, SubmitsIn, FlowsIn, ReadsIn, InHandOf, FlowingOf, AdmitOne, Apply, QueueTold;
    OneCommand(cs, c);
    OneOp(w.ops, Offer(at, c.task, c.req, c.timeout));
    OfferTold(cfg, w, after, run, c, at);
    OfferSilent(cfg, w.desk, c, at);
  }

  /** A command taken in. */
  lemma {:induction false} ReceiveBooks(cfg: Config, w: World, at: int, log: seq<Command>)
    requires Books(cfg, w, log) && Enabled(w, Receive(at))
    ensures Books(cfg, Next(cfg, w, Receive(at)), log)
  {
    hide RunFrom, Tracks, AdmitOne, Logged, QueueTold, CommandsTold;
    var e, after := Receive(at), Next(cfg, w, Receive(at));
    var c, n := w.channel[0], |w.received|;
    NextTracks(cfg, w, e);
    NextLogged(cfg, w, e, log);
    assert log + [] == log;
    assert log[..n + 1] == log[..n] + [c] && |after.received| == n + 1;
    var run := RunFrom(cfg, Nothing, w.ops);
    TracksQueue(cfg, w);
    assert w.ops + [] == w.ops;
    assert after.ops == w.ops + OpsFor(c, at) && after.desk == AdmitOne(cfg, w.desk, c, at);
    hide Next;
    if c.Submit? {
      OneMore(cfg, w.ops, Offer(at, c.task, c.req, c.timeout));
      SubmitTold(cfg, w, after, run, log[..n], c, at);
    } else {
      OtherTold(cfg, w, after, run, log[..n], c, at);
    }
  }

  lemma {:induction false} TracksQueue(cfg: Config, w: World)
    requires Tracks(cfg, w)
    ensures RunFrom(cfg, Nothing, w.ops).q == w.desk.queue
  {}

  /** A workflow waits its turn; a read is answered there and then. */
  lemma {:induction false} OtherTold(cfg: Config, w: World, after: World, run: Run, cs: seq<Command>, c: Command,
                                     at: int)
    requires QueueTold(run, w) && CommandsTold(w, cs) && !c.Submit?
    requires after.desk == AdmitOne(cfg, w.desk, c, at) && after.ops == w.ops && after.submitting == w.submitting
    requires InHandOf(after.phase) == InHandOf(w.phase) && FlowingOf(after.phase) == FlowingOf(w.phase)
    ensures QueueTold(run, after) && CommandsTold(after, cs + [c])
  {
    hide Given, OffersIn, SubmitsIn, FlowsIn, ReadsIn, InHandOf, FlowingOf;
    OneCommand(cs, c);
    if c.Read? {
      forall a ensures Given(after.desk.replies, a) == Given(w.desk.replies, a) + if a == Facts then [c.req] else [] {
        GivenOne(w.desk.replies, Reply(c.req, Facts), a);
      }
    }
  }

  /** Giving up on what is late: those and only those are told they waited too long. */
  lemma {:induction false} SweepTold(cfg: Config, w: World, run: Run, at: int)
    requires QueueTold(run, w) && run.q == w.desk.queue
    ensures QueueTold(Apply(cfg, run, Sweep(at)), w.(desk := GiveUp(w.desk, at)))
    ensures var d := GiveUp(w.desk, at);
            && Given(d.replies, Report) == Given(w.desk.replies, Report)
            && Given(d.replies, Facts) == Given(w.desk.replies, Facts) && d.flows == w.desk.flows
    ensures Apply(cfg, run, Sweep(at)).q == GiveUp(w.desk, at).queue
  {
    hide Given, InHandOf, TurnedAway, Split, DroppedEntries;
    var gone := Split(w.desk.queue.entries, at, true);
    GivenLate(w.desk.replies, gone, TimedOut);
    GivenLate(w.desk.replies, gone, Full);
    GivenLate(w.desk.replies, gone, Result);
    GivenLate(w.desk.replies, gone, Report);
    GivenLate(w.desk.replies, gone, Facts);
    assert Payloads(run.expired + gone) == Payloads(run.expired) + Payloads(gone);
    hide Payloads, TooLate;
  }

  /** Taking what is next: it is in hand. */
  lemma {:induction false} TakeTold(cfg: Config, w: World, after: World, run: Run, at: int)
    requires QueueTold(run, w) && InHandOf(w.phase) == multiset{}
    requires after.desk.replies == w.desk.replies && after.submitting == w.submitting
    requires var next := Pop(cfg, run.q, at).1;
             InHandOf(after.phase) == if next.Some? then multiset{next.value.payload} else multiset{}
    ensures QueueTold(Apply(cfg, run, Take(at)), after)
  {
    hide Given, InHandOf, TurnedAway, DroppedEntries, Pop;
    var next := Pop(cfg, run.q, at).1;
    if next.Some? { PayloadsAppend(run.taken, next.value); }
    hide Payloads;
    assert run.taken + [] == run.taken;
  }

  lemma {:induction false} PickTold(cfg: Config, w: World, after: World, run: Run, at: int)
    requires QueueTold(run, w) && run.q == w.desk.queue && InHandOf(w.phase) == multiset{}
    requires after.desk.replies == GiveUp(w.desk, at).replies && after.submitting == w.submitting
    requires var next := Pop(cfg, GiveUp(w.desk, at).queue, at).1;
             InHandOf(after.phase) == if next.Some? then multiset{next.value.payload} else multiset{}
    ensures QueueTold(Apply(cfg, Apply(cfg, run, Sweep(at)), Take(at)), after)
    ensures Given(after.desk.replies, Report) == Given(w.desk.replies, Report)
    ensures Given(after.desk.replies, Facts) == Given(w.desk.replies, Facts)
  {
    hide Given, InHandOf, Pop, GiveUp, Apply, QueueTold;
    SweepTold(cfg, w, run, at);
    TakeTold(cfg, w.(desk := GiveUp(w.desk, at)), after, Apply(cfg, run, Sweep(at)), at);
  }

  lemma {:induction false} PickBooks(cfg: Config, w: World, at: int, log: seq<Command>)
    requires Books(cfg, w, log) && Enabled(w, Pick(at))
    ensures Books(cfg, Next(cfg, w, Pick(at)), log)
  {
    hide RunFrom, Tracks, Logged, QueueTold, GiveUp, Pop, Given, OffersIn, SubmitsIn, FlowsIn, ReadsIn, Apply;
    var e, after := Pick(at), Next(cfg, w, Pick(at));
    NextTracks(cfg, w, e);
    NextLogged(cfg, w, e, log);
    assert log + [] == log;
    TracksQueue(cfg, w);
    OneMore(cfg, w.ops, Sweep(at));
    OneMore(cfg, w.ops + [Sweep(at)], Take(at));
    OneOp(w.ops, Sweep(at));
    OneOp(w.ops + [Sweep(at)], Take(at));
    PickTold(cfg, w, after, RunFrom(cfg, Nothing, w.ops), at);
    assert after.desk.flows == w.desk.flows by { GiveUpShorter(w.desk, at); }
  }

  /** Everything else: a dispatch answers, a workflow is reported on, things change hands. */
  lemma {:induction false} TakenMoves(cfg: Config, w: World, e: Event)
    requires Enabled(w, e) && !e.Receive? && !e.Pick?
    ensures TakenLeft(w)
         == TakenLeft(Next(cfg, w, e)) + if e.Answer? then multiset{w.submitting[e.which]} else multiset{}
  {
    hide Next, InHandOf;
    if e.Answer? {
      AnswerMoves(cfg, w, e.which);
      OneOut(w.submitting, e.which);
    } else if e.Spawn? {
      SpawnMoves(cfg, w);
    } else {
      TakenStays(cfg, w, e);
    }
    hide Enabled;
  }

  lemma {:induction false} AnswerMoves(cfg: Config, w: World, i: nat)
    requires Enabled(w, Answer(i))
    ensures var after := Next(cfg, w, Answer(i));
            after.submitting == w.submitting[..i] + w.submitting[i + 1..] && after.phase == w.phase
  {}

  lemma {:induction false} SpawnMoves(cfg: Config, w: World)
    requires Enabled(w, Spawn)
    ensures TakenLeft(w) == TakenLeft(Next(cfg, w, Spawn))
  {
    var after := Next(cfg, w, Spawn);
    assert after.submitting == w.submitting + [w.phase.entry.payload] && after.phase == Reaping;
    hide Next;
  }

  lemma {:induction false} OneOut(s: seq<nat>, i: nat)
    requires i < |s|
    ensures multiset(s) == multiset(s[..i] + s[i + 1..]) + multiset{s[i]}
  {
    assert s == s[..i] + [s[i]] + s[i + 1..];
  }

  lemma {:induction false} TakenStays(cfg: Config, w: World, e: Event)
    requires Enabled(w, e) && !e.Receive? && !e.Pick? && !e.Answer? && !e.Spawn?
    ensures Next(cfg, w, e).submitting == w.submitting && InHandOf(Next(cfg, w, e).phase) == InHandOf(w.phase)
  {
    hide ChannelAfter, OpsAfter, DeskAfter;
  }

  lemma {:induction false} RestAnswers(cfg: Config, w: World, e: Event)
    requires Enabled(w, e) && !e.Receive? && !e.Pick?
    ensures var replies, after := w.desk.replies, Next(cfg, w, e).desk.replies;
            && Given(after, TimedOut) == Given(replies, TimedOut) && Given(after, Full) == Given(replies, Full)
            && Given(after, Result)
               == Given(replies, Result) + if e.Answer? then [w.submitting[e.which]] else []
  {
    hide Given, ChannelAfter, PhaseAfter, OpsAfter, SubmittingAfter;
    var replies := w.desk.replies;
    if e.Answer? || e.FlowDone? {
      var r := if e.Answer? then Reply(w.submitting[e.which], Result) else Reply(w.phase.left[0], Report);
      assert Next(cfg, w, e).desk.replies == replies + [r];
      GivenOne(replies, r, TimedOut);
      GivenOne(replies, r, Full);
      GivenOne(replies, r, Result);
    } else {
      assert Next(cfg, w, e).desk.replies == replies;
    }
  }

  lemma {:induction false} RestQueueTold(cfg: Config, w: World, e: Event, run: Run)
    requires Enabled(w, e) && QueueTold(run, w) && !e.Receive? && !e.Pick?
    ensures QueueTold(run, Next(cfg, w, e))
  {
    hide Given, Payloads, TurnedAway, DroppedEntries, Next, TakenLeft;
    TakenMoves(cfg, w, e);
    RestAnswers(cfg, w, e);
    var before, after := w.desk.replies, Next(cfg, w, e).desk.replies;
    hide Enabled;
    if e.Answer? {
      var x := w.submitting[e.which];
      assert multiset(Given(before, Result) + [x]) == multiset(Given(before, Result)) + multiset{x};
    } else {
      assert Given(before, Result) + [] == Given(before, Result);
    }
  }

  lemma {:induction false} FlowsMove(cfg: Config, w: World, e: Event)
    requires Enabled(w, e) && !e.Receive? && !e.Pick?
    ensures FlowsLeft(w) == (if e.FlowDone? then [w.phase.left[0]] else []) + FlowsLeft(Next(cfg, w, e))
  {
    hide ChannelAfter, OpsAfter, SubmittingAfter;
    var after := Next(cfg, w, e);
    if e.FlowDone? {
      var left := w.phase.left;
      assert after.desk.flows == w.desk.flows && after.phase == Flowing(left[1..]);
      hide Next;
      assert left == [left[0]] + left[1..];
    } else if e.Drained? {
      assert after.desk.flows == [] && after.phase == Flowing(w.desk.flows);
    } else {
      FlowsStay(cfg, w, e);
    }
  }

  lemma {:induction false} FlowsStay(cfg: Config, w: World, e: Event)
    requires Enabled(w, e) && !e.Receive? && !e.Pick? && !e.FlowDone? && !e.Drained?
    ensures Next(cfg, w, e).desk.flows == w.desk.flows && FlowingOf(Next(cfg, w, e).phase) == FlowingOf(w.phase)
  {
    hide ChannelAfter, OpsAfter, SubmittingAfter;
  }

  lemma {:induction false} RestReplies(cfg: Config, w: World, e: Event)
    requires Enabled(w, e) && !e.Receive? && !e.Pick?
    ensures Next(cfg, w, e).ops == w.ops && Next(cfg, w, e).received == w.received
    ensures var replies, after := w.desk.replies, Next(cfg, w, e).desk.replies;
            && Given(after, Report)
               == Given(replies, Report) + (if e.FlowDone? then [w.phase.left[0]] else [])
            && Given(after, Facts) == Given(replies, Facts)
  {
    hide Given, ChannelAfter, PhaseAfter;
    if e.Answer? {
      GivenOne(w.desk.replies, Reply(w.submitting[e.which], Result), Report);
      GivenOne(w.desk.replies, Reply(w.submitting[e.which], Result), Facts);
    } else if e.FlowDone? {
      GivenOne(w.desk.replies, Reply(w.phase.left[0], Report), Report);
      GivenOne(w.desk.replies, Reply(w.phase.left[0], Report), Facts);
    } else {
      assert Next(cfg, w, e).desk.replies == w.desk.replies;
    }
  }

  lemma {:induction false} RestCommandsTold(cfg: Config, w: World, e: Event, cs: seq<Command>)
    requires Enabled(w, e) && CommandsTold(w, cs) && !e.Receive? && !e.Pick?
    ensures CommandsTold(Next(cfg, w, e), cs)
  {
    hide Given, OffersIn, SubmitsIn, FlowsIn, ReadsIn, Next, FlowsLeft;
    FlowsMove(cfg, w, e);
    RestReplies(cfg, w, e);
  }

  lemma {:induction false} NextBooks(cfg: Config, w: World, e: Event, log: seq<Command>)
    requires Books(cfg, w, log) && Enabled(w, e)
    ensures Books(cfg, Next(cfg, w, e), log + Asks(e, |log|))
  {
    hide RunFrom, Tracks, Logged, QueueTold, CommandsTold, Enabled;
    NextLogged(cfg, w, e, log);
    if e.Receive? {
      ReceiveBooks(cfg, w, e.at, log);
      assert log + [] == log;
    } else if e.Pick? {
      PickBooks(cfg, w, e.at, log);
      assert log + [] == log;
    } else {
      RestBooks(cfg, w, e, log);
    }
  }

  lemma {:induction false} RestBooks(cfg: Config, w: World, e: Event, log: seq<Command>)
    requires Books(cfg, w, log) && Enabled(w, e) && !e.Receive? && !e.Pick?
    ensures Books(cfg, Next(cfg, w, e), log + Asks(e, |log|))
  {
    hide RunFrom, Tracks, Logged, QueueTold, CommandsTold, Enabled, Asks, Next;
    LoggedSize(w, log);
    NextLogged(cfg, w, e, log);
    NextTracks(cfg, w, e);
    RestReplies(cfg, w, e);
    RestQueueTold(cfg, w, e, RunFrom(cfg, Nothing, w.ops));
    RestCommandsTold(cfg, w, e, log[..|w.received|]);
    assert (log + Asks(e, |log|))[..|w.received|] == log[..|w.received|];
  }

  lemma {:induction false} LoggedSize(w: World, log: seq<Command>)
    requires Logged(w, log)
    ensures |w.received| <= |log|
  {}

  lemma {:induction false} SentMore(log: seq<Command>, events: seq<Event>)
    requires events != []
    ensures var more := log + Asks(events[0], |log|);
            more + Sent(events[1..], |more|) == log + Sent(events, |log|)
  {
    hide Asks;
  }

  lemma {:induction false} ReachesBooks(cfg: Config, w: World, events: seq<Event>, after: World, log: seq<Command>)
    requires Books(cfg, w, log) && Reaches(cfg, w, events, after)
    ensures Books(cfg, after, log + Sent(events, |log|))
    decreases |events|
  {
    hide Books, Next, Enabled, Asks;
    if events == [] {
      assert log + [] == log;
    } else {
      var e := events[0];
      NextBooks(cfg, w, e, log);
      SentMore(log, events);
      hide Sent;
      ReachesBooks(cfg, Next(cfg, w, e), events[1..], after, log + Asks(e, |log|));
    }
  }

  lemma {:induction false} InitialBooks(cfg: Config, inFlight: nat, clock: int)
    ensures Books(cfg, Initial(inFlight, clock), [])
  {
    assert Payloads([]) == [] && TurnedAway([]) == [] && DroppedEntries([]) == [];
  }

  // ---- The answers ----

  /** In every run, who is told what: that they waited too long, exactly those the queue
      expired; that there was no room, exactly those it refused or displaced; a result,
      exactly those taken from it and no longer out; a report, exactly the workflows that
      are through, in the order they came; facts, exactly the reads received. */
  lemma {:induction false} AnswersExactly(cfg: Config, inFlight: nat, clock: int, events: seq<Event>, w: World, req: nat)
    requires Reaches(cfg, Initial(inFlight, clock), events, w)
    ensures var run := RunFrom(cfg, Nothing, w.ops);
            && (Reply(req, TimedOut) in w.desk.replies <==> req in Payloads(run.expired))
            && (Reply(req, Full) in w.desk.replies
                <==> req in TurnedAway(run.refused) || req in Payloads(DroppedEntries(run.displaced)))
            && (Reply(req, Result) in w.desk.replies <==> req in Payloads(run.taken) && Pending(w)[req] == 0)
    ensures var sent := Sent(events, 0);
            && |w.received| <= |sent| == w.sent
            && (Reply(req, Report) in w.desk.replies
                <==> req < |w.received| && sent[req].Flow? && Pending(w)[req] == 0)
            && (Reply(req, Facts) in w.desk.replies <==> req < |w.received| && sent[req].Read?)
            && OffersIn(w.ops) == SubmitsIn(sent[..|w.received|])
            && Given(w.desk.replies, Report) <= FlowsIn(sent[..|w.received|])
  {
    hide Reaches, RunFrom;
    InitialBooks(cfg, inFlight, clock);
    ReachesBooks(cfg, Initial(inFlight, clock), events, w, []);
    var sent := Sent(events, 0);
    assert [] + sent == sent;
    CommandsCounted(sent[..|w.received|], req);
    ExactlyOneAnswer(cfg, inFlight, clock, events, w, req);
    QueueAnswers(w, RunFrom(cfg, Nothing, w.ops), req);
    CommandAnswers(w, sent[..|w.received|], req);
  }

  lemma {:induction false} QueueAnswers(w: World, run: Run, req: nat)
    requires QueueTold(run, w) && Pending(w)[req] + Heard(w.desk)[req] <= 1
    ensures Reply(req, TimedOut) in w.desk.replies <==> req in Payloads(run.expired)
    ensures Reply(req, Full) in w.desk.replies
       <==> req in TurnedAway(run.refused) || req in Payloads(DroppedEntries(run.displaced))
    ensures Reply(req, Result) in w.desk.replies <==> req in Payloads(run.taken) && Pending(w)[req] == 0
  {
    hide Given, OnDesk, Payloads, TurnedAway, DroppedEntries;
    GivenIn(w.desk.replies, TimedOut, req);
    GivenIn(w.desk.replies, Full, req);
    GivenIn(w.desk.replies, Result, req);
    GivenHeard(w.desk.replies, Result, req);
    assert req in Given(w.desk.replies, Full) <==> req in multiset(Given(w.desk.replies, Full));
    assert req in TurnedAway(run.refused) <==> req in multiset(TurnedAway(run.refused));
    assert Pending(w)[req] >= multiset(w.submitting)[req] + InHandOf(w.phase)[req];
    assert multiset(Payloads(run.taken))[req]
        == multiset(Given(w.desk.replies, Result))[req] + multiset(w.submitting)[req] + InHandOf(w.phase)[req];
    assert req in Payloads(run.taken) <==> multiset(Payloads(run.taken))[req] > 0;
    assert multiset(Given(w.desk.replies, Result))[req] <= Heard(w.desk)[req];
  }

  lemma {:induction false} CommandAnswers(w: World, cs: seq<Command>, req: nat)
    requires CommandsTold(w, cs) && Pending(w)[req] + Heard(w.desk)[req] <= 1
    ensures Reply(req, Report) in w.desk.replies <==> req in FlowsIn(cs) && Pending(w)[req] == 0
    ensures Reply(req, Facts) in w.desk.replies <==> req in ReadsIn(cs)
  {
    hide Given, FlowsIn, ReadsIn, OffersIn, SubmitsIn, Payloads;
    GivenIn(w.desk.replies, Report, req);
    GivenIn(w.desk.replies, Facts, req);
    GivenHeard(w.desk.replies, Report, req);
    assert Pending(w)[req] >= multiset(w.desk.flows)[req] + multiset(FlowingOf(w.phase))[req];
    assert multiset(Given(w.desk.replies, Report))[req] <= Heard(w.desk)[req];
  }

  /** The next task goes out exactly when fewer dispatches than allowed have their permit; one
      is always allowed. */
  lemma {:induction false} SpawnsExactly(cfg: Config, inFlight: nat, clock: int, events: seq<Event>, w: World)
    requires Reaches(cfg, Initial(inFlight, clock), events, w) && w.phase.InHand?
    ensures Enabled(w, Spawn) <==> |w.submitting| + w.replied < if inFlight == 0 then 1 else inFlight
  {
    ReachesKeeps(cfg, inFlight, Initial(inFlight, clock), events, w);
  }

  /** With nothing owed, nothing in the channel and nothing out, the loop goes to wait, and
      from there nothing happens but what a client does. */
  lemma {:induction false} RestsWhenIdle(cfg: Config, inFlight: nat, clock: int, events: seq<Event>, w: World, e: Event)
    requires Reaches(cfg, Initial(inFlight, clock), events, w) && w.phase.Top? && w.open
    requires w.desk.queue.entries == [] && w.channel == [] && Idle(w)
    ensures Enabled(w, Enter) && (Enabled(Next(cfg, w, Enter), e) ==> ByClient(e))
  {
    ReachesKeeps(cfg, inFlight, Initial(inFlight, clock), events, w);
  }
}
