/** The loop that owns the queue: it admits commands, runs workflows, gives up on what is
    late, and keeps a bounded number of dispatches out. Requests are numbered in the order
    the clients sent them, and a request's number stands for its reply channel. */
module Dispatchers {
  import opened Core
  import opened Queues
  import opened QueueRuns

  datatype Command =
    | Submit(req: nat, task: Task, timeout: Option<nat>)
    | Flow(req: nat)
    | Read(req: nat)

  datatype Answer = Result | Full | TimedOut | Report | Facts

  datatype Reply = Reply(req: nat, answer: Answer)

  /** What the loop itself owns: the queue, workflows not yet started, replies sent. */
  datatype Desk = Desk(queue: State, flows: seq<nat>, replies: seq<Reply>)

  function Told(d: Desk, req: nat, answer: Answer): Desk {
    d.(replies := d.replies + [Reply(req, answer)])
  }

  /** A read is answered at once; a submission joins the queue, or somebody hears that
      there is no room. */
  function AdmitOne(cfg: Config, d: Desk, c: Command, now: int): Desk {
    match c
    case Submit(req, task, timeout) =>
      var (q, answer) := Push(cfg, d.queue, task, req, now, timeout);
      (match answer
       case Queued => d.(queue := q)
       case Refused(_, payload) => Told(d.(queue := q), payload, Full)
       case Displaced(e) => Told(d.(queue := q), e.payload, Full))
    case Flow(req) => d.(flows := d.flows + [req])
    case Read(req) => Told(d, req, Facts)
  }

  function TooLate(gone: seq<Entry>): (r: seq<Reply>) {
    seq(|gone|, i requires 0 <= i < |gone| => Reply(gone[i].payload, TimedOut))
  }

  function GiveUp(d: Desk, now: int): Desk {
    var (q, gone) := Expire(d.queue, now);
    d.(queue := q, replies := d.replies + TooLate(gone))
  }

  /** The dispatcher's own fields, updated in place. */
  class Dispatcher {
    const queue: Queue
    var flows: seq<nat>
    var replies: seq<Reply>

    constructor (cfg: Config)
      ensures fresh(queue) && queue.cfg == cfg && Now() == Desk(State([], 0), [], [])
    {
      queue := new Queue(cfg);
      flows, replies := [], [];
    }

    function Now(): Desk
      reads this, queue
    {
      Desk(queue.Now(), flows, replies)
    }

    method Admit(c: Command, now: int)
      modifies this, queue
      ensures Now() == AdmitOne(queue.cfg, old(Now()), c, now)
    {
      match c
      case Submit(req, task, timeout) =>
        var admitted := queue.PushWithTimeout(task, req, now, timeout);
        match admitted {
          case Queued =>
          case Refused(_, reply) => replies := replies + [Reply(reply, Full)];
          case Displaced(entry) => replies := replies + [Reply(entry.payload, Full)];
        }
      case Flow(req) => flows := flows + [req];
      case Read(req) => replies := replies + [Reply(req, Facts)];
    }

    /** Answers everything past its deadline, then takes what should run next. */
    method Choose(now: int) returns (next: Option<Entry>)
      modifies this, queue
      ensures var (q, e) := Pop(queue.cfg, GiveUp(old(Now()), now).queue, now);
              next == e && Now() == GiveUp(old(Now()), now).(queue := q)
    {
      var gone := queue.ExpireAll(now);
      ghost var before := replies;
      for i := 0 to |gone|
        invariant replies == before + TooLate(gone)[..i] && flows == old(flows)
        invariant queue.Now() == Expire(old(queue.Now()), now).0
      {
        replies := replies + [Reply(gone[i].payload, TimedOut)];
        assert TooLate(gone)[..i + 1] == TooLate(gone)[..i] + [TooLate(gone)[i]];
      }
      next := queue.PopNext(now);
    }
  }

  // ---- The loop as a state machine ----

  /** Where the loop stands. Everything outside it may move between any two of its steps. */
  datatype Phase =
    | Top
    | Waiting
    | Draining
    | Flowing(left: seq<nat>)
    | Choosing
    | InHand(entry: Entry)
    | Reaping
    | Leaving
    | Returned

  /** `submitting` are dispatches still out, by request; `replied` have answered and not
      yet given their permit back; `finished` have, and wait to be joined. `received` and
      `ops` remember what was taken from the channel and done to the queue. */
  datatype World = World(
    open: bool,
    channel: seq<Command>,
    sent: nat,
    phase: Phase,
    desk: Desk,
    closed: bool,
    permits: nat,
    submitting: seq<nat>,
    replied: nat,
    finished: nat,
    clock: int,
    received: seq<nat>,
    ops: seq<Op>)

  datatype Event =
    // clients
    | SendSubmit(task: Task, timeout: Option<nat>)
    | SendFlow
    | SendRead
    | HangUp
    // the loop
    | Enter
    | Receive(at: int)
    | HearHangUp
    | Join
    | Drained
    | FlowDone
    | FlowsDone
    | Pick(at: int)
    | Spawn
    | Reaped
    | Leave
    // dispatches
    | Answer(which: nat)
    | Release

  function Limit(inFlight: nat): nat {
    if inFlight > 1 then inFlight else 1
  }

  function Initial(inFlight: nat, clock: int): World {
    World(true, [], 0, Top, Desk(State([], 0), [], []), false, Limit(inFlight), [], 0, 0, clock, [], [])
  }

  predicate Idle(w: World) {
    w.submitting == [] && w.replied == 0 && w.finished == 0
  }

  /** Whether `e` can happen now. */
  predicate Enabled(w: World, e: Event) {
    match e
    case SendSubmit(_, _) => w.open
    case SendFlow => w.open
    case SendRead => w.open
    case HangUp => w.open
    case Enter => w.phase.Top?
    case Receive(at) => (w.phase.Waiting? || w.phase.Draining?) && w.channel != [] && w.clock <= at
    case HearHangUp => w.phase.Waiting? && w.channel == [] && !w.open
    case Join => (w.phase.Waiting? || w.phase.Reaping? || w.phase.Leaving?) && w.finished > 0
    case Drained => w.phase.Draining? && w.channel == []
    case FlowDone => w.phase.Flowing? && w.phase.left != []
    case FlowsDone => w.phase.Flowing? && w.phase.left == []
    case Pick(at) => w.phase.Choosing? && w.clock <= at
    case Spawn => w.phase.InHand? && w.permits > 0
    case Reaped => w.phase.Reaping?
    case Leave => w.phase.Leaving? && Idle(w)
    case Answer(i) => i < |w.submitting|
    case Release => w.replied > 0
  }

  // What a step does, field by field.

  predicate Sends(e: Event) {
    e.SendSubmit? || e.SendFlow? || e.SendRead?
  }

  function ChannelAfter(w: World, e: Event): seq<Command>
    requires Enabled(w, e)
  {
    match e
    case SendSubmit(task, timeout) => w.channel + [Submit(w.sent, task, timeout)]
    case SendFlow => w.channel + [Flow(w.sent)]
    case SendRead => w.channel + [Read(w.sent)]
    case Receive(_) => w.channel[1..]
    case _ => w.channel
  }

  function PhaseAfter(cfg: Config, w: World, e: Event): Phase
    requires Enabled(w, e)
  {
    match e
    case Enter => if w.desk.queue.entries == [] && w.desk.flows == [] then Waiting else Draining
    case Receive(_) => Draining
    case HearHangUp => if Idle(w) then Returned else Draining
    case Join => if w.phase.Waiting? then Draining else w.phase
    case Drained => Flowing(w.desk.flows)
    case FlowDone => Flowing(w.phase.left[1..])
    case FlowsDone => Choosing
    case Pick(at) =>
      var next := Pop(cfg, GiveUp(w.desk, at).queue, at).1;
      if next.Some? then InHand(next.value) else if w.closed then Leaving else Top
    case Spawn => Reaping
    case Reaped => Top
    case Leave => Returned
    case _ => w.phase
  }

  function DeskAfter(cfg: Config, w: World, e: Event): Desk
    requires Enabled(w, e)
  {
    match e
    case Receive(at) => AdmitOne(cfg, w.desk, w.channel[0], at)
    case Drained => w.desk.(flows := [])
    case FlowDone => Told(w.desk, w.phase.left[0], Report)
    case Pick(at) => GiveUp(w.desk, at).(queue := Pop(cfg, GiveUp(w.desk, at).queue, at).0)
    case Answer(i) => Told(w.desk, w.submitting[i], Result)
    case _ => w.desk
  }

  function ClosedAfter(w: World, e: Event): bool {
    w.closed || (e.HearHangUp? && !Idle(w)) || (e.FlowsDone? && !w.open)
  }

  function SubmittingAfter(w: World, e: Event): seq<nat>
    requires Enabled(w, e)
  {
    match e
    case Spawn => w.submitting + [w.phase.entry.payload]
    case Answer(i) => w.submitting[..i] + w.submitting[i + 1..]
    case _ => w.submitting
  }

  function OpsAfter(w: World, e: Event): seq<Op>
    requires Enabled(w, e)
  {
    match e
    case Receive(at) =>
      var c := w.channel[0];
      if c.Submit? then w.ops + [Offer(at, c.task, c.req, c.timeout)] else w.ops
    case Pick(at) => w.ops + [Sweep(at)] + [Take(at)]
    case _ => w.ops
  }

  function Next(cfg: Config, w: World, e: Event): World
    requires Enabled(w, e)
  {
    World(
      w.open && !e.HangUp?,
      ChannelAfter(w, e),
      if Sends(e) then w.sent + 1 else w.sent,
      PhaseAfter(cfg, w, e),
      DeskAfter(cfg, w, e),
      ClosedAfter(w, e),
      if e.Spawn? then w.permits - 1 else if e.Release? then w.permits + 1 else w.permits,
      SubmittingAfter(w, e),
      if e.Answer? then w.replied + 1 else if e.Release? then w.replied - 1 else w.replied,
      if e.Release? then w.finished + 1 else if e.Join? then w.finished - 1 else w.finished,
      if e.Receive? || e.Pick? then e.at else w.clock,
      if e.Receive? then w.received + [w.channel[0].req] else w.received,
      OpsAfter(w, e))
  }

  /** `after` is reached from `w` by `events`, each possible when it happened. */
  predicate Reaches(cfg: Config, w: World, events: seq<Event>, after: World)
    decreases |events|
  {
    if events == [] then after == w
    else Enabled(w, events[0]) && Reaches(cfg, Next(cfg, w, events[0]), events[1..], after)
  }

  // ---- Where every request is ----

  function Payloads(entries: seq<Entry>): seq<nat> {
    seq(|entries|, i requires 0 <= i < |entries| => entries[i].payload)
  }

  function Asked(replies: seq<Reply>): seq<nat> {
    seq(|replies|, i requires 0 <= i < |replies| => replies[i].req)
  }

  function Carried(p: Phase): multiset<nat> {
    match p
    case Flowing(left) => multiset(left)
    case InHand(e) => multiset{e.payload}
    case _ => multiset{}
  }

  /** Requests taken in and not answered yet. */
  function OnDesk(d: Desk): multiset<nat> {
    multiset(Payloads(d.queue.entries)) + multiset(d.flows)
  }

  function Pending(w: World): multiset<nat> {
    OnDesk(w.desk) + Carried(w.phase) + multiset(w.submitting)
  }

  function Heard(d: Desk): multiset<nat> {
    multiset(Asked(d.replies))
  }

  predicate Accounted(w: World) {
    multiset(w.received) == Pending(w) + Heard(w.desk)
  }

  /** Requests are received in the order they were sent, none skipped. */
  predicate InOrder(w: World) {
    && |w.received| + |w.channel| == w.sent
    && (forall i | 0 <= i < |w.received| :: w.received[i] == i)
    && (forall i | 0 <= i < |w.channel| :: w.channel[i].req == |w.received| + i)
  }

  predicate Sane(w: World) {
    && (w.phase.Waiting? || w.phase.Leaving? || w.phase.Returned? ==> w.desk.queue.entries == [])
    && (!w.phase.Draining? ==> w.desk.flows == [])
    && (w.phase.Returned? ==> Idle(w))
  }

  predicate Permitted(inFlight: nat, w: World) {
    |w.submitting| + w.replied + w.permits == Limit(inFlight)
  }

  predicate Inv(inFlight: nat, w: World) {
    Accounted(w) && InOrder(w) && Sane(w) && Permitted(inFlight, w)
  }

  // ---- Every step keeps the books ----

  lemma {:induction false} ToldAdds(d: Desk, req: nat, answer: Answer)
    ensures Heard(Told(d, req, answer)) == Heard(d) + multiset{req}
    ensures OnDesk(Told(d, req, answer)) == OnDesk(d)
  {
    assert Asked(d.replies + [Reply(req, answer)]) == Asked(d.replies) + [req];
  }

  lemma {:induction false} PayloadsWithout(s: seq<Entry>, i: nat)
    requires i < |s|
    ensures multiset(Payloads(s)) == multiset(Payloads(Without(s, i))) + multiset{s[i].payload}
  {
    var p := Payloads(s);
    assert p == p[..i] + [p[i]] + p[i + 1..];
    assert Payloads(Without(s, i)) == p[..i] + p[i + 1..];
  }

  lemma {:induction false} PayloadsAppend(s: seq<Entry>, e: Entry)
    ensures multiset(Payloads(s + [e])) == multiset(Payloads(s)) + multiset{e.payload}
  {
    assert Payloads(s + [e]) == Payloads(s) + [e.payload];
  }

  lemma {:induction false} PayloadsCons(e: Entry, s: seq<Entry>)
    ensures multiset(Payloads([e] + s)) == multiset{e.payload} + multiset(Payloads(s))
  {
    assert Payloads([e] + s) == [e.payload] + Payloads(s);
  }

  lemma {:induction false} SplitStep(s: seq<Entry>, now: int, b: bool)
    requires s != []
    ensures Split(s, now, b) == if Expired(s[0], now) == b then [s[0]] + Split(s[1..], now, b) else Split(s[1..], now, b)
  {
    assert [] + Split(s[1..], now, b) == Split(s[1..], now, b);
  }

  /** How often each request occurs among the entries, split by deadline. */
  lemma {:induction false} PayloadsSplit(s: seq<Entry>, now: int)
    ensures multiset(Payloads(s)) == multiset(Payloads(Split(s, now, false))) + multiset(Payloads(Split(s, now, true)))
  {
    if s == [] {
      assert Split(s, now, true) == [] && Split(s, now, false) == [];
    } else {
      var first, rest := s[0], s[1..];
      PayloadsSplit(rest, now);
      SplitStep(s, now, true);
      SplitStep(s, now, false);
      PayloadsCons(first, rest);
      assert s == [first] + rest;
      hide *;
      PayloadsCons(first, Split(rest, now, true));
      PayloadsCons(first, Split(rest, now, false));
    }
  }

  /** Admitting one command adds its request, and moves at most one other to the answered. */
  lemma {:induction false} AdmitAccounts(cfg: Config, d: Desk, c: Command, now: int)
    ensures var after := AdmitOne(cfg, d, c, now);
            OnDesk(after) + Heard(after) == OnDesk(d) + Heard(d) + multiset{c.req}
  {
    match c
    case Submit(req, task, timeout) => PushAccounts(cfg, d, c, now);
    case Flow(req) =>
    case Read(req) => ToldAdds(d, req, Facts);
  }

  lemma {:induction false} PushAccounts(cfg: Config, d: Desk, c: Command, now: int)
    requires c.Submit?
    ensures var after := AdmitOne(cfg, d, c, now);
            OnDesk(after) + Heard(after) == OnDesk(d) + Heard(d) + multiset{c.req}
  {
    var s := d.queue.entries;
    var e := NewEntry(cfg, d.queue, c.task, c.req, now, c.timeout);
    var v := Victim(cfg, d.queue, c.task, now);
    var (q, answer) := Push(cfg, d.queue, c.task, c.req, now, c.timeout);
    var middle := d.(queue := q);
    if answer.Queued? {
      PayloadsAppend(s, e);
    } else if answer.Refused? {
      ToldAdds(middle, c.req, Full);
    } else {
      PayloadsWithout(s, v.value);
      PayloadsAppend(Without(s, v.value), e);
      ToldAdds(middle, s[v.value].payload, Full);
    }
  }

  lemma {:induction false} GiveUpAccounts(d: Desk, now: int)
    ensures OnDesk(GiveUp(d, now)) + Heard(GiveUp(d, now)) == OnDesk(d) + Heard(d)
  {
    hide Split;
    var gone := Split(d.queue.entries, now, true);
    PayloadsSplit(d.queue.entries, now);
    assert Asked(d.replies + TooLate(gone)) == Asked(d.replies) + Payloads(gone);
    hide Asked, Payloads, TooLate;
  }

  lemma {:induction false} Regroup(a: multiset<nat>, b: multiset<nat>, c: multiset<nat>, d: multiset<nat>,
                                   more: multiset<nat>)
    requires a + b == c + d
    ensures a + more + b == c + more + d
  {
    forall x ensures (a + more + b)[x] == (c + more + d)[x] { assert (a + b)[x] == (c + d)[x]; }
  }

  lemma {:induction false} ReceiveKeeps(cfg: Config, w: World, at: int)
    requires Accounted(w) && Enabled(w, Receive(at))
    ensures Accounted(Next(cfg, w, Receive(at)))
  {
    hide AdmitOne, OnDesk, Heard, OpsAfter;
    var after, req := Next(cfg, w, Receive(at)), w.channel[0].req;
    AdmitAccounts(cfg, w.desk, w.channel[0], at);
    assert Carried(w.phase) == Carried(after.phase) == multiset{};
    assert multiset(after.received) == multiset(w.received) + multiset{req};
    Regroup(OnDesk(after.desk), Heard(after.desk), OnDesk(w.desk) + multiset{req}, Heard(w.desk), multiset(w.submitting));
    assert Pending(after) == OnDesk(after.desk) + multiset(w.submitting);
    assert Pending(w) == OnDesk(w.desk) + multiset(w.submitting);
  }

  lemma {:induction false} PopAccounts(cfg: Config, d: Desk, at: int)
    ensures var (q, next) := Pop(cfg, d.queue, at);
            OnDesk(d) == OnDesk(d.(queue := q)) + if next.Some? then multiset{next.value.payload} else multiset{}
    ensures Pop(cfg, d.queue, at).1.None? ==> Pop(cfg, d.queue, at).0.entries == []
  {
    var s := d.queue.entries;
    if s != [] { PayloadsWithout(s, Best(s, at, cfg.aging, |s|)); }
  }

  lemma {:induction false} PickKeeps(cfg: Config, w: World, at: int)
    requires Accounted(w) && Enabled(w, Pick(at))
    ensures Accounted(Next(cfg, w, Pick(at)))
  {
    hide Pop, GiveUp, OnDesk, OpsAfter;
    var d := GiveUp(w.desk, at);
    var after := Next(cfg, w, Pick(at));
    GiveUpAccounts(w.desk, at);
    PopAccounts(cfg, d, at);
    assert Heard(after.desk) == Heard(d);
    assert Carried(w.phase) == multiset{};
    assert OnDesk(d) == OnDesk(after.desk) + Carried(after.phase);
    Regroup(OnDesk(d), Heard(d), OnDesk(w.desk), Heard(w.desk), multiset(w.submitting));
  }

  lemma {:induction false} AnswerKeeps(cfg: Config, w: World, i: nat)
    requires Accounted(w) && Enabled(w, Answer(i))
    ensures Accounted(Next(cfg, w, Answer(i)))
  {
    hide Told, OnDesk, Heard;
    var after, req := Next(cfg, w, Answer(i)), w.submitting[i];
    ToldAdds(w.desk, req, Result);
    assert w.submitting == w.submitting[..i] + [req] + w.submitting[i + 1..];
    assert multiset(w.submitting) == multiset(after.submitting) + multiset{req};
    assert Carried(after.phase) == Carried(w.phase);
    var rest := OnDesk(w.desk) + Carried(w.phase);
    Regroup(multiset(after.submitting), Heard(after.desk), multiset(w.submitting), Heard(w.desk), rest);
  }

  lemma {:induction false} FlowKeeps(cfg: Config, w: World)
    requires Accounted(w) && Enabled(w, FlowDone)
    ensures Accounted(Next(cfg, w, FlowDone))
  {
    hide Told, OnDesk, Heard;
    var left, after := w.phase.left, Next(cfg, w, FlowDone);
    ToldAdds(w.desk, left[0], Report);
    assert left == [left[0]] + left[1..];
    assert Carried(w.phase) == multiset{left[0]} + Carried(after.phase);
  }

  lemma {:induction false} DrainedKeeps(cfg: Config, w: World)
    requires Accounted(w) && Enabled(w, Drained)
    ensures Accounted(Next(cfg, w, Drained))
  {
    var after := Next(cfg, w, Drained);
    assert Carried(after.phase) == multiset(w.desk.flows) && Carried(w.phase) == multiset{};
    assert OnDesk(w.desk) == OnDesk(after.desk) + multiset(w.desk.flows);
  }

  lemma {:induction false} SpawnKeeps(cfg: Config, w: World)
    requires Accounted(w) && Enabled(w, Spawn)
    ensures Accounted(Next(cfg, w, Spawn))
  {
    hide OnDesk, Heard;
    var after := Next(cfg, w, Spawn);
    assert Carried(w.phase) == multiset{w.phase.entry.payload} && Carried(after.phase) == multiset{};
    assert multiset(after.submitting) == multiset(w.submitting) + multiset{w.phase.entry.payload};
  }

  /** Every other step leaves each request where it is. */
  lemma {:induction false} RestKeeps(cfg: Config, w: World, e: Event)
    requires Enabled(w, e) && Accounted(w)
    requires !(e.Receive? || e.Pick? || e.Answer? || e.FlowDone? || e.Drained? || e.Spawn?)
    ensures Accounted(Next(cfg, w, e))
  {
    hide OnDesk, Heard;
    var after := Next(cfg, w, e);
    assert after.desk == w.desk && after.received == w.received && after.submitting == w.submitting;
    assert Carried(after.phase) == Carried(w.phase);
  }

  lemma {:induction false} NextAccounts(cfg: Config, w: World, e: Event)
    requires Enabled(w, e) && Accounted(w)
    ensures Accounted(Next(cfg, w, e))
  {
    hide Accounted, Next, Enabled;
    match e
    case Receive(at) => ReceiveKeeps(cfg, w, at);
    case Pick(at) => PickKeeps(cfg, w, at);
    case Answer(i) => AnswerKeeps(cfg, w, i);
    case FlowDone => FlowKeeps(cfg, w);
    case Drained => DrainedKeeps(cfg, w);
    case Spawn => SpawnKeeps(cfg, w);
    case _ => RestKeeps(cfg, w, e);
  }

  lemma {:induction false} NextInOrder(cfg: Config, w: World, e: Event)
    requires Enabled(w, e) && InOrder(w)
    ensures InOrder(Next(cfg, w, e))
  {
    hide PhaseAfter, DeskAfter, OpsAfter, SubmittingAfter;
    var after := Next(cfg, w, e);
    assert after.channel == ChannelAfter(w, e);
  }

  lemma {:induction false} NextPermitted(cfg: Config, inFlight: nat, w: World, e: Event)
    requires Enabled(w, e) && Permitted(inFlight, w)
    ensures Permitted(inFlight, Next(cfg, w, e))
  {
    hide PhaseAfter, DeskAfter, OpsAfter, ChannelAfter;
  }

  /** Only an entry admitted or a sweep changes the queue, and only while it may. */
  lemma {:induction false} NextSane(cfg: Config, w: World, e: Event)
    requires Enabled(w, e) && Sane(w)
    ensures Sane(Next(cfg, w, e))
  {
    hide OpsAfter, ChannelAfter, AdmitOne;
    if e.Pick? {
      PopAccounts(cfg, GiveUp(w.desk, e.at), e.at);
      assert GiveUp(w.desk, e.at).flows == w.desk.flows;
    }
    hide Pop, GiveUp;
  }

  lemma {:induction false} NextKeeps(cfg: Config, inFlight: nat, w: World, e: Event)
    requires Enabled(w, e) && Inv(inFlight, w)
    ensures Inv(inFlight, Next(cfg, w, e))
  {
    hide Accounted, InOrder, Sane, Permitted, Next, Enabled;
    NextAccounts(cfg, w, e);
    NextInOrder(cfg, w, e);
    NextPermitted(cfg, inFlight, w, e);
    NextSane(cfg, w, e);
  }

  lemma {:induction false} ReachesKeeps(cfg: Config, inFlight: nat, w: World, events: seq<Event>, after: World)
    requires Inv(inFlight, w) && Reaches(cfg, w, events, after)
    ensures Inv(inFlight, after)
    decreases |events|
  {
    if events != [] {
      NextKeeps(cfg, inFlight, w, events[0]);
      ReachesKeeps(cfg, inFlight, Next(cfg, w, events[0]), events[1..], after);
    }
  }

  lemma {:induction false} Once(s: seq<nat>, x: nat)
    requires forall i | 0 <= i < |s| :: s[i] == i
    ensures multiset(s)[x] == if x < |s| then 1 else 0
  {
    if s != [] {
      var last := |s| - 1;
      assert s == s[..last] + [s[last]];
      Once(s[..last], x);
    }
  }

  /** In every run, a request the dispatcher received is in exactly one place, pending or
      answered, and once; nobody else is ever answered; and when the dispatcher returns each has
      been answered exactly once. Dispatches out never exceed the limit. */
  lemma {:induction false} ExactlyOneAnswer(cfg: Config, inFlight: nat, clock: int, events: seq<Event>, w: World,
                                            req: nat)
    requires Reaches(cfg, Initial(inFlight, clock), events, w)
    ensures Pending(w)[req] + Heard(w.desk)[req] == if req in w.received then 1 else 0
    ensures w.phase.Returned? ==> Heard(w.desk)[req] == if req in w.received then 1 else 0
    ensures req in w.received <==> req < w.sent - |w.channel|
    ensures |w.submitting| + w.replied <= Limit(inFlight)
  {
    ReachesKeeps(cfg, inFlight, Initial(inFlight, clock), events, w);
    Once(w.received, req);
    assert req in w.received <==> multiset(w.received)[req] > 0;
  }

  /** A run told as a table: where the dispatcher stands, and what happens next. The world
      is that of `Initial` but for what is shown. */
  function Scene(task: Task, w: World, i: nat): (World, Event) {
    var submit := Submit(1, task, None);
    var flowed := w.(sent := 1, received := [0]);
    var gone := flowed.(open := false, sent := 2, channel := [submit]);
    var told := gone.(desk := w.desk.(replies := [Reply(0, Report)]));
    match i
    case 0 => (w, SendFlow)
    case 1 => (w.(sent := 1, channel := [Flow(0)]), Enter)
    case 2 => (w.(sent := 1, channel := [Flow(0)], phase := Waiting), Receive(0))
    case 3 => (flowed.(phase := Draining, desk := w.desk.(flows := [0])), Drained)
    case 4 => (flowed.(phase := Flowing([0])), SendSubmit(task, None))
    case 5 => (gone.(open := true, phase := Flowing([0])), HangUp)
    case 6 => (gone.(phase := Flowing([0])), FlowDone)
    case 7 => (told.(phase := Flowing([])), FlowsDone)
    case 8 => (told.(phase := Choosing, closed := true), Pick(0))
    case 9 => (told.(phase := Leaving, closed := true, ops := [Sweep(0), Take(0)]), Leave)
    case _ => (told.(phase := Returned, closed := true, ops := [Sweep(0), Take(0)]), Leave)
  }

  lemma {:induction false} SceneEarly(cfg: Config, inFlight: nat, task: Task, i: nat)
    requires i < 4
    ensures var w := Initial(inFlight, 0);
            && Enabled(Scene(task, w, i).0, Scene(task, w, i).1)
            && Next(cfg, Scene(task, w, i).0, Scene(task, w, i).1) == Scene(task, w, i + 1).0
  {}

  lemma {:induction false} SceneMiddle(cfg: Config, inFlight: nat, task: Task, i: nat)
    requires 4 <= i < 8
    ensures var w := Initial(inFlight, 0);
            && Enabled(Scene(task, w, i).0, Scene(task, w, i).1)
            && Next(cfg, Scene(task, w, i).0, Scene(task, w, i).1) == Scene(task, w, i + 1).0
  {
    assert [0][1..] == [];
  }

  lemma {:induction false} SceneLate(cfg: Config, inFlight: nat, task: Task, i: nat)
    requires 8 <= i < 10
    ensures var w := Initial(inFlight, 0);
            && Enabled(Scene(task, w, i).0, Scene(task, w, i).1)
            && Next(cfg, Scene(task, w, i).0, Scene(task, w, i).1) == Scene(task, w, i + 1).0
  {
    var w := Scene(task, Initial(inFlight, 0), 8).0;
    assert GiveUp(w.desk, 0) == w.desk by { assert w.desk.replies + TooLate([]) == w.desk.replies; }
    assert w.ops + [Sweep(0)] + [Take(0)] == [Sweep(0), Take(0)];
  }

  lemma {:induction false} SceneRun(cfg: Config, inFlight: nat, task: Task, i: nat) returns (events: seq<Event>)
    requires i <= 10
    ensures Reaches(cfg, Scene(task, Initial(inFlight, 0), i).0, events, Scene(task, Initial(inFlight, 0), 10).0)
    decreases 10 - i
  {
    if i == 10 { return []; }
    hide Scene, Enabled, Next;
    var rest := SceneRun(cfg, inFlight, task, i + 1);
    if i < 4 { SceneEarly(cfg, inFlight, task, i); }
    else if i < 8 { SceneMiddle(cfg, inFlight, task, i); }
    else { SceneLate(cfg, inFlight, task, i); }
    var (w, e) := Scene(task, Initial(inFlight, 0), i);
    ReachesOne(cfg, w, e, rest, Scene(task, Initial(inFlight, 0), 10).0);
    events := [e] + rest;
  }

  /** A client can go unheard: a submission that arrives while the last workflow runs is
      still in the channel when the dispatcher sees the clients gone and returns. */
  lemma {:induction false} UnheardSubmission(cfg: Config, inFlight: nat, task: Task) returns (events: seq<Event>,
                                             w: World)
    ensures Reaches(cfg, Initial(inFlight, 0), events, w) && w.phase.Returned?
    ensures w.sent == 2 && w.channel == [Submit(1, task, None)] && Heard(w.desk) == multiset{0}
  {
    events := SceneRun(cfg, inFlight, task, 0);
    hide Reaches;
    w := Scene(task, Initial(inFlight, 0), 10).0;
    assert Asked(w.desk.replies) == [0];
  }

  lemma {:induction false} ReachesOne(cfg: Config, w: World, e: Event, events: seq<Event>, after: World)
    requires Enabled(w, e) && Reaches(cfg, Next(cfg, w, e), events, after)
    ensures Reaches(cfg, w, [e] + events, after)
  {
    assert ([e] + events)[1..] == events;
  }

  // ---- Taking in the queue's own laws ----

  predicate Tracks(cfg: Config, w: World) {
    && RunFrom(cfg, Nothing, w.ops).q == w.desk.queue
    && Timed(w.ops)
    && (forall i | 0 <= i < |w.ops| :: w.ops[i].at <= w.clock)
  }

  /** What `e` does to the queue, as the operations it stands for. */
  lemma {:induction false} OpsTrack(cfg: Config, w: World, e: Event)
    requires Enabled(w, e) && RunFrom(cfg, Nothing, w.ops).q == w.desk.queue
    ensures RunFrom(cfg, Nothing, OpsAfter(w, e)).q == DeskAfter(cfg, w, e).queue
  {
    match e
    case Receive(at) =>
      var c := w.channel[0];
      if c.Submit? { OneMore(cfg, w.ops, Offer(at, c.task, c.req, c.timeout)); }
    case Pick(at) =>
      OneMore(cfg, w.ops, Sweep(at));
      OneMore(cfg, w.ops + [Sweep(at)], Take(at));
    case _ =>
  }

  lemma {:induction false} OpsTimed(w: World, e: Event)
    requires Enabled(w, e) && Timed(w.ops) && forall i | 0 <= i < |w.ops| :: w.ops[i].at <= w.clock
    ensures Timed(OpsAfter(w, e))
    ensures forall i | 0 <= i < |OpsAfter(w, e)| ::
              OpsAfter(w, e)[i].at <= if e.Receive? || e.Pick? then e.at else w.clock
  {}

  lemma {:induction false} NextTracks(cfg: Config, w: World, e: Event)
    requires Enabled(w, e) && Tracks(cfg, w)
    ensures Tracks(cfg, Next(cfg, w, e))
  {
    hide RunFrom, OpsAfter, DeskAfter, ChannelAfter, PhaseAfter, SubmittingAfter, Enabled, Timed;
    OpsTrack(cfg, w, e);
    OpsTimed(w, e);
  }

  lemma {:induction false} OneMore(cfg: Config, ops: seq<Op>, op: Op)
    ensures RunFrom(cfg, Nothing, ops + [op]) == Apply(cfg, RunFrom(cfg, Nothing, ops), op)
  {
    assert (ops + [op])[..|ops|] == ops;
  }

  lemma {:induction false} ReachesTracks(cfg: Config, w: World, events: seq<Event>, after: World)
    requires Tracks(cfg, w) && Reaches(cfg, w, events, after)
    ensures Tracks(cfg, after)
    decreases |events|
  {
    if events != [] {
      NextTracks(cfg, w, events[0]);
      ReachesTracks(cfg, Next(cfg, w, events[0]), events[1..], after);
    }
  }

  /** The queue's precedence holds of whole runs of the dispatcher: what it takes in hand
      was not outranked by anything that came earlier and still waits. */
  lemma {:induction false} DispatchOrder(cfg: Config, inFlight: nat, clock: int, events: seq<Event>, w: World,
                                         at: int, x: Entry)
    requires Reaches(cfg, Initial(inFlight, clock), events, w) && Enabled(w, Pick(at))
    requires Next(cfg, w, Pick(at)).phase.InHand? && x in Next(cfg, w, Pick(at)).desk.queue.entries
    requires x.sequence < Next(cfg, w, Pick(at)).phase.entry.sequence
    ensures !Outranks(x, Next(cfg, w, Pick(at)).phase.entry, cfg.aging)
  {
    hide Reaches, Outranks, RunFrom, Next, Timed, Expire, Pop;
    InitialTracks(cfg, inFlight, clock);
    ReachesTracks(cfg, Initial(inFlight, clock), events, w);
    var swept := w.ops + [Sweep(at)];
    OneMore(cfg, w.ops, Sweep(at));
    OpsTimed(w, Pick(at));
    PickTakes(cfg, w, at, x);
    assert RunFrom(cfg, Nothing, swept).q == Expire(w.desk.queue, at).0;
    Precedence(cfg, swept, at, x, Next(cfg, w, Pick(at)).phase.entry);
  }

  lemma {:induction false} InitialTracks(cfg: Config, inFlight: nat, clock: int)
    ensures Tracks(cfg, Initial(inFlight, clock))
  {}

  lemma {:induction false} PickTakes(cfg: Config, w: World, at: int, x: Entry)
    requires Enabled(w, Pick(at)) && Next(cfg, w, Pick(at)).phase.InHand?
    requires x in Next(cfg, w, Pick(at)).desk.queue.entries
    ensures var q := Expire(w.desk.queue, at).0;
            x in q.entries && Pop(cfg, q, at).1 == Some(Next(cfg, w, Pick(at)).phase.entry)
  {
    var q := Expire(w.desk.queue, at).0;
    assert GiveUp(w.desk, at).queue == q;
    hide Expire, GiveUp, OpsAfter;
  }

  // ---- It always comes to an end ----

  predicate ByClient(e: Event) {
    e.SendSubmit? || e.SendFlow? || e.SendRead? || e.HangUp?
  }

  /** As long as an answer is owed, or the clients have gone, something of the
      dispatcher's own can happen. */
  lemma {:induction false} NeverStuck(inFlight: nat, w: World) returns (e: Event)
    requires Inv(inFlight, w) && !w.phase.Returned?
    requires Pending(w) != multiset{} || w.channel != [] || !w.open
    ensures Enabled(w, e) && !ByClient(e)
  {
    match w.phase
    case Top => e := Enter;
    case Waiting =>
      if w.channel != [] { e := Receive(w.clock); }
      else if !w.open { e := HearHangUp; }
      else {
        assert OnDesk(w.desk) == multiset{} by { assert Payloads([]) == []; }
        assert w.submitting != [];
        e := Answer(0);
      }
    case Draining => e := if w.channel != [] then Receive(w.clock) else Drained;
    case Flowing(left) => e := if left != [] then FlowDone else FlowsDone;
    case Choosing => e := Pick(w.clock);
    case InHand(_) => e := if w.permits > 0 then Spawn else if w.replied > 0 then Release else Answer(0);
    case Reaping => e := Reaped;
    case Leaving =>
      e := if Idle(w) then Leave else if w.finished > 0 then Join else if w.replied > 0 then Release else Answer(0);
  }

  function PhaseLeft(w: World): nat {
    match w.phase
    case Top => 9
    case Waiting => 8
    case Draining => 7
    case Flowing(left) => 6 + 2 * |left|
    case Choosing => if w.closed then 5 else 12
    case InHand(_) => 20
    case Reaping => 10
    case Leaving => 1
    case Returned => 0
  }

  /** How many more steps there can be once the clients are gone. */
  function Left(w: World): nat {
    60 * |w.channel| + 40 * |w.desk.queue.entries| + 30 * |w.desk.flows| + PhaseLeft(w)
    + 3 * |w.submitting| + 2 * w.replied + w.finished
  }

  lemma {:induction false} SplitShorter(s: seq<Entry>, now: int)
    ensures |Split(s, now, false)| <= |s|
  {
    if s != [] { SplitShorter(s[1..], now); }
  }

  lemma {:induction false} GiveUpShorter(d: Desk, at: int)
    ensures |GiveUp(d, at).queue.entries| <= |d.queue.entries| && GiveUp(d, at).flows == d.flows
  {
    SplitShorter(d.queue.entries, at);
  }

  lemma {:induction false} PickSpends(cfg: Config, w: World, at: int)
    requires !w.open && Enabled(w, Pick(at)) && w.desk.flows == []
    ensures Left(Next(cfg, w, Pick(at))) < Left(w)
  {
    hide GiveUp, Pop, OpsAfter;
    var d, after := GiveUp(w.desk, at), Next(cfg, w, Pick(at));
    GiveUpShorter(w.desk, at);
    PopShorter(cfg, d.queue, at);
    assert after.desk.flows == [] && after.desk.queue == Pop(cfg, d.queue, at).0;
    assert after.submitting == w.submitting && after.channel == w.channel;
  }

  lemma {:induction false} PopShorter(cfg: Config, q: State, at: int)
    ensures |Pop(cfg, q, at).0.entries| == if Pop(cfg, q, at).1.Some? then |q.entries| - 1 else |q.entries|
  {}

  lemma {:induction false} AdmitLonger(cfg: Config, d: Desk, c: Command, at: int)
    ensures var after := AdmitOne(cfg, d, c, at);
            && |after.queue.entries| + |after.flows| <= |d.queue.entries| + |d.flows| + 1
            && |after.flows| >= |d.flows|
            && |after.queue.entries| <= |d.queue.entries| + 1
  {}

  lemma {:induction false} ReceiveSpends(cfg: Config, w: World, at: int)
    requires !w.open && Enabled(w, Receive(at))
    ensures Left(Next(cfg, w, Receive(at))) < Left(w)
  {
    AdmitLonger(cfg, w.desk, w.channel[0], at);
    hide AdmitOne, OpsAfter;
  }

  lemma {:induction false} RestSpends(cfg: Config, w: World, e: Event)
    requires Sane(w) && !w.open && Enabled(w, e) && !e.Pick? && !e.Receive?
    ensures Left(Next(cfg, w, e)) < Left(w)
  {
    hide OpsAfter;
    var after := Next(cfg, w, e);
    assert after.channel == w.channel && after.desk.queue == w.desk.queue;
    assert after.desk.flows == if e.Drained? then [] else w.desk.flows;
    hide DeskAfter, ChannelAfter;
  }

  lemma {:induction false} StepSpends(cfg: Config, inFlight: nat, w: World, e: Event)
    requires Inv(inFlight, w) && !w.open && Enabled(w, e)
    ensures Left(Next(cfg, w, e)) < Left(w) && !Next(cfg, w, e).open
  {
    hide Accounted, InOrder, Left;
    if e.Pick? { PickSpends(cfg, w, e.at); }
    else if e.Receive? { ReceiveSpends(cfg, w, e.at); }
    else { RestSpends(cfg, w, e); }
    hide Sane, PhaseAfter, DeskAfter, ChannelAfter, OpsAfter;
  }

  /** Once the clients have gone no run is longer than `Left`, and whatever has happened
      so far, the run can go on until the dispatcher returns: it always comes to its end. */
  lemma {:induction false} RunsEnd(cfg: Config, inFlight: nat, w: World, events: seq<Event>, after: World)
    requires Inv(inFlight, w) && !w.open && Reaches(cfg, w, events, after)
    ensures |events| + Left(after) <= Left(w)
    ensures !after.phase.Returned? ==> exists e :: Enabled(after, e) && !ByClient(e)
    decreases |events|
  {
    if events == [] {
      if !after.phase.Returned? { var e := NeverStuck(inFlight, after); }
    } else {
      NextKeeps(cfg, inFlight, w, events[0]);
      StepSpends(cfg, inFlight, w, events[0]);
      RunsEnd(cfg, inFlight, Next(cfg, w, events[0]), events[1..], after);
    }
  }

  /** A run that cannot go on after the clients have gone has answered everyone it heard. */
  lemma {:induction false} EveryRunAnswers(cfg: Config, inFlight: nat, clock: int, events: seq<Event>, w: World,
                                           req: nat)
    requires Reaches(cfg, Initial(inFlight, clock), events, w) && !w.open && forall e :: !Enabled(w, e)
    ensures w.phase.Returned? && Heard(w.desk)[req] == if req in w.received then 1 else 0
  {
    ReachesKeeps(cfg, inFlight, Initial(inFlight, clock), events, w);
    if !w.phase.Returned? { var e := NeverStuck(inFlight, w); }
    ExactlyOneAnswer(cfg, inFlight, clock, events, w, req);
  }
}
