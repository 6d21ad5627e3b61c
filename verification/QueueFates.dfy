/** Why a task leaves the queue, told from the operations alone: how long it was prepared
    to wait, how long it has waited, and who makes room in a full queue. */
module QueueFates {
  import opened Core
  import opened Queues
  import opened QueueRuns

  function Waiting(cfg: Config, ops: seq<Op>): seq<Entry> {
    RunFrom(cfg, Nothing, ops).q.entries
  }

  /** Operation `i` put `x` in the queue. */
  predicate PutIn(cfg: Config, ops: seq<Op>, i: nat, x: Entry) {
    && i < |ops| && ops[i].Offer?
    && x in Waiting(cfg, ops[..i + 1]) && x !in Waiting(cfg, ops[..i])
  }

  /** How long whoever made the offer will wait: its own limit, or else the queue's. */
  function Patience(cfg: Config, offer: Op): Option<nat>
    requires offer.Offer?
  {
    match offer.timeout
    case Some(own) => Some(own)
    case None => cfg.timeout
  }

  predicate Overdue(cfg: Config, offer: Op, at: int)
    requires offer.Offer?
  {
    match Patience(cfg, offer)
    case None => false
    case Some(limit) => at - offer.at >= limit
  }

  // ---- Who was put in by what ----

  lemma {:induction false} PrefixRun(cfg: Config, ops: seq<Op>, i: nat)
    requires i < |ops|
    ensures RunFrom(cfg, Nothing, ops[..i + 1]) == Apply(cfg, RunFrom(cfg, Nothing, ops[..i]), ops[i])
  {
    assert ops[..i + 1][..i] == ops[..i];
  }

  /** What an operation puts in the queue is what it offers. */
  lemma {:induction false} OnlyOffersAdd(cfg: Config, r: Run, op: Op, x: Entry)
    requires x in Apply(cfg, r, op).q.entries && x !in r.q.entries
    ensures op.Offer? && x == NewEntry(cfg, r.q, op.task, op.payload, op.at, op.timeout)
  {
    if op.Sweep? { SplitHolds(r.q.entries, op.at, false); }
  }

  /** Everything waiting was put in by some offer. */
  lemma {:induction false} SomeonePut(cfg: Config, ops: seq<Op>, x: Entry) returns (i: nat)
    requires x in Waiting(cfg, ops)
    ensures PutIn(cfg, ops, i, x)
    decreases |ops|
  {
    var last := |ops| - 1;
    assert ops[..last + 1] == ops;
    PrefixRun(cfg, ops, last);
    if x in Waiting(cfg, ops[..last]) {
      i := SomeonePut(cfg, ops[..last], x);
      assert ops[..last][..i] == ops[..i] && ops[..last][..i + 1] == ops[..i + 1];
    } else {
      OnlyOffersAdd(cfg, RunFrom(cfg, Nothing, ops[..last]), ops[last], x);
      i := last;
    }
  }

  /** The entry an offer made. */
  lemma {:induction false} MadeBy(cfg: Config, ops: seq<Op>, i: nat, x: Entry)
    requires PutIn(cfg, ops, i, x)
    ensures x.task == ops[i].task && x.payload == ops[i].payload && x.queuedAt == ops[i].at
    ensures x.sequence == RunFrom(cfg, Nothing, ops[..i]).q.nextSequence
    ensures forall at :: Expired(x, at) <==> Overdue(cfg, ops[i], at)
  {
    PrefixRun(cfg, ops, i);
    OnlyOffersAdd(cfg, RunFrom(cfg, Nothing, ops[..i]), ops[i], x);
  }

  // ---- Deadlines ----

  lemma {:induction false} SplitExactly(s: seq<Entry>, now: int, b: bool, x: Entry)
    ensures x in Split(s, now, b) <==> x in s && Expired(x, now) == b
  {
    if s != [] {
      SplitExactly(s[1..], now, b, x);
      assert s == [s[0]] + s[1..];
    }
  }

  /** A sweep removes a task exactly when it still waits and has waited as long as it was
      prepared to; never, if nobody set a limit. */
  lemma {:induction false} SweepExactly(cfg: Config, ops: seq<Op>, i: nat, at: int, x: Entry) returns (gone: seq<Entry>)
    requires PutIn(cfg, ops, i, x)
    ensures RunFrom(cfg, Nothing, ops + [Sweep(at)]).expired == RunFrom(cfg, Nothing, ops).expired + gone
    ensures x in gone <==> x in Waiting(cfg, ops) && Overdue(cfg, ops[i], at)
    ensures x in Waiting(cfg, ops + [Sweep(at)]) <==> x in Waiting(cfg, ops) && !Overdue(cfg, ops[i], at)
  {
    MadeBy(cfg, ops, i, x);
    var all := ops + [Sweep(at)];
    assert all[..|ops|] == ops && all[..|ops| + 1] == all;
    PrefixRun(cfg, all, |ops|);
    var q := RunFrom(cfg, Nothing, ops).q;
    gone := Split(q.entries, at, true);
    SplitExactly(q.entries, at, true, x);
    SplitExactly(q.entries, at, false, x);
  }

  /** Some sweep among the first `n` operations found `x` waiting, and overdue. */
  predicate SweptAway(cfg: Config, ops: seq<Op>, i: nat, x: Entry, n: nat)
    requires i < |ops| && ops[i].Offer? && n <= |ops|
  {
    exists k | i < k < n :: ops[k].Sweep? && x in Waiting(cfg, ops[..k]) && Overdue(cfg, ops[i], ops[k].at)
  }

  /** Nothing not yet offered has expired. */
  lemma {:induction false} NotYetExpired(cfg: Config, ops: seq<Op>, x: Entry)
    requires Timed(ops) && x.sequence >= RunFrom(cfg, Nothing, ops).q.nextSequence
    ensures x !in RunFrom(cfg, Nothing, ops).expired
  {
    var start := if ops == [] then 0 else ops[0].at;
    RunAccounts(cfg, start, ops);
    var r := RunFrom(cfg, Nothing, ops);
    hide RunFrom;
    assert x !in r.admitted && multiset(r.admitted)[x] == 0;
    assert Gone(r)[x] == 0 && multiset(r.expired)[x] == 0;
  }

  lemma {:induction false} StepExpires(cfg: Config, r: Run, op: Op, x: Entry)
    ensures x in Apply(cfg, r, op).expired
       <==> x in r.expired || (op.Sweep? && x in r.q.entries && Expired(x, op.at))
  {
    if op.Sweep? { SplitExactly(r.q.entries, op.at, true, x); }
  }

  lemma {:induction false} SweptMore(cfg: Config, ops: seq<Op>, i: nat, x: Entry, n: nat)
    requires i < n < |ops| && ops[i].Offer?
    ensures SweptAway(cfg, ops, i, x, n + 1)
       <==> || SweptAway(cfg, ops, i, x, n)
            || (ops[n].Sweep? && x in Waiting(cfg, ops[..n]) && Overdue(cfg, ops[i], ops[n].at))
  {
    hide Waiting, Overdue;
  }

  lemma {:induction false} ExpiresBy(cfg: Config, ops: seq<Op>, i: nat, x: Entry, n: nat)
    requires Timed(ops) && PutIn(cfg, ops, i, x) && i < n <= |ops|
    ensures x in RunFrom(cfg, Nothing, ops[..n]).expired <==> SweptAway(cfg, ops, i, x, n)
    decreases n
  {
    hide Apply, Overdue, Expired, RunFrom, Timed;
    MadeBy(cfg, ops, i, x);
    PrefixRun(cfg, ops, n - 1);
    StepExpires(cfg, RunFrom(cfg, Nothing, ops[..n - 1]), ops[n - 1], x);
    if i < n - 1 {
      ExpiresBy(cfg, ops, i, x, n - 1);
      SweptMore(cfg, ops, i, x, n - 1);
      hide SweptAway;
    } else {
      TimedSlices(ops, i);
      NotYetExpired(cfg, ops[..i], x);
    }
  }

  /** Over whole runs: a task ends expired exactly when a sweep found it waiting and overdue. */
  lemma {:induction false} ExpiresExactly(cfg: Config, ops: seq<Op>, i: nat, x: Entry)
    requires Timed(ops) && PutIn(cfg, ops, i, x)
    ensures x in RunFrom(cfg, Nothing, ops).expired <==> SweptAway(cfg, ops, i, x, |ops|)
  {
    ExpiresBy(cfg, ops, i, x, |ops|);
    assert ops[..|ops|] == ops;
  }

  // ---- Ageing ----

  /** A task is as urgent as `level` once it has waited one ageing period for each level
      it was declared below that, and not before. */
  lemma {:induction false} AgesExactly(e: Entry, now: int, aging: nat, level: Priority)
    requires level > e.task.priority
    ensures Effective(e, now, aging) >= level
       <==> aging > 0 && now - e.queuedAt >= (level - e.task.priority) * aging
    ensures Effective(e, now, aging) >= e.task.priority
  {
    if aging > 0 {
      var need: nat := level - e.task.priority;
      var waited := Waited(e, now);
      assert need * aging > 0;
      if now - e.queuedAt >= need * aging {
        DivAtLeast(waited, need, aging);
      } else {
        BelowQuotient(waited, need, aging);
      }
    }
  }

  lemma {:induction false} BelowQuotient(n: nat, q: nat, d: nat)
    requires d > 0 && n < q * d
    ensures n / d < q
  {
    assert (n / d) * d <= n;
    Cancel(n / d, q, d);
  }

  // ---- A full queue ----

  /** Somebody waiting is less urgent than `task` is declared. */
  predicate Outdone(cfg: Config, waiting: seq<Entry>, task: Task, at: int) {
    exists i | 0 <= i < |waiting| :: Effective(waiting[i], at, cfg.aging) < task.priority
  }

  /** Whether somebody has to make room for an offer, and can. */
  predicate MakesRoom(cfg: Config, waiting: seq<Entry>, task: Task, at: int) {
    match cfg.rejection
    case Reject => false
    case DropOldest => waiting != []
    case DropLowestPriority => Outdone(cfg, waiting, task, at)
  }

  lemma {:induction false} VictimExactly(cfg: Config, q: State, task: Task, at: int)
    ensures Victim(cfg, q, task, at).Some? <==> MakesRoom(cfg, q.entries, task, at)
  {
    if cfg.rejection == DropLowestPriority && q.entries != [] {
      var w := Worst(q.entries, at, cfg.aging, |q.entries|);
      forall i | 0 <= i < |q.entries|
        ensures Effective(q.entries[w], at, cfg.aging) <= Effective(q.entries[i], at, cfg.aging)
      {
        assert GivesWay(q.entries[w], q.entries[i], at, cfg.aging);
      }
    }
  }

  /** The longest waiting is the first in the list. */
  lemma {:induction false} OldestIsFirst(entries: seq<Entry>)
    requires Ordered(entries) && entries != []
    ensures Oldest(entries, |entries|) == 0
  {
    var o := Oldest(entries, |entries|);
    assert entries[o].sequence <= entries[0].sequence;
  }

  predicate NoRoom(cfg: Config, waiting: seq<Entry>) {
    match cfg.maxSize
    case None => false
    case Some(limit) => |waiting| >= limit
  }

  /** `after` is `before` with one entry more, at the end of `left`, and nothing else new but
      who was displaced. */
  predicate Joins(before: Run, after: Run, left: seq<Entry>, op: Op, displaced: seq<Dropped>)
    requires op.Offer?
  {
    && |after.q.entries| == |left| + 1 && left < after.q.entries
    && var e := after.q.entries[|left|];
       && e.task == op.task && e.payload == op.payload && e.queuedAt == op.at
       && after.admitted == before.admitted + [e]
       && after == before.(q := after.q, admitted := after.admitted, displaced := before.displaced + displaced)
  }

  /** What becomes of an offer: queued exactly when there is room; otherwise it takes the
      place of another exactly when the policy finds one, and is refused when not. */
  ghost predicate Answered(cfg: Config, before: Run, after: Run, op: Op)
    requires op.Offer?
  {
    var waiting := before.q.entries;
    if !NoRoom(cfg, waiting) then Joins(before, after, waiting, op, [])
    else if !MakesRoom(cfg, waiting, op.task, op.at) then
      after == before.(refused := before.refused + [Turned(op.task, op.payload, op.at)])
    else
      exists v | 0 <= v < |waiting| ::
        && Joins(before, after, Without(waiting, v), op, [Dropped(waiting[v], op.at)])
        && (cfg.rejection == DropOldest ==> v == 0)
        && (cfg.rejection == DropLowestPriority ==>
              forall i | 0 <= i < |waiting| :: GivesWay(waiting[v], waiting[i], op.at, cfg.aging))
  }

  lemma {:induction false} OfferAnswered(cfg: Config, r: Run, op: Op)
    requires op.Offer? && Ordered(r.q.entries)
    ensures Answered(cfg, r, Apply(cfg, r, op), op)
  {
    var after, waiting := Apply(cfg, r, op), r.q.entries;
    var v := Victim(cfg, r.q, op.task, op.at);
    VictimExactly(cfg, r.q, op.task, op.at);
    hide MakesRoom;
    if !NoRoom(cfg, waiting) {
      assert r.displaced + [] == r.displaced;
    } else if v.Some? {
      if cfg.rejection == DropOldest { OldestIsFirst(waiting); }
      hide Effective, GivesWay, Oldest, Ordered;
      assert Joins(r, after, Without(waiting, v.value), op, [Dropped(waiting[v.value], op.at)]);
    }
  }

  /** So it is in every run: dropping the oldest drops the earliest arrival that still waits,
      and dropping the least urgent one than which nobody waiting is less so. */
  lemma {:induction false} OfferExactly(cfg: Config, ops: seq<Op>, op: Op)
    requires Timed(ops + [op]) && op.Offer?
    ensures Ordered(Waiting(cfg, ops))
    ensures Answered(cfg, RunFrom(cfg, Nothing, ops), RunFrom(cfg, Nothing, ops + [op]), op)
  {
    var all := ops + [op];
    assert all[..|ops|] == ops && all[..|ops| + 1] == all;
    PrefixRun(cfg, all, |ops|);
    TimedSlices(all, |ops|);
    RunWellFormed(cfg, Nothing, all[0].at, ops);
    hide RunFrom, Timed, Answered, Apply;
    OfferAnswered(cfg, RunFrom(cfg, Nothing, ops), op);
  }
}
