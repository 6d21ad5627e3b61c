/** Whole runs of the queue: any sequence of offers, takes and sweeps under a clock that
    never goes back. */
module QueueRuns {
  import opened Core
  import opened Queues

  datatype Op =
    | Offer(at: int, task: Task, payload: nat, timeout: Option<nat>)
    | Take(at: int)
    | Sweep(at: int)

  /** A task that gave way, and when: turned away at the door, or dropped for another. */
  datatype Turned = Turned(task: Task, payload: nat, at: int)
  datatype Dropped = Dropped(entry: Entry, at: int)

  /** The queue and everything that ever happened to it. */
  datatype Run = Run(
    q: State,
    admitted: seq<Entry>,
    taken: seq<Entry>,
    expired: seq<Entry>,
    refused: seq<Turned>,
    displaced: seq<Dropped>)

  const Nothing := Run(State([], 0), [], [], [], [], [])

  function Apply(cfg: Config, r: Run, op: Op): Run {
    match op
    case Offer(at, task, payload, timeout) =>
      var (q, answer) := Push(cfg, r.q, task, payload, at, timeout);
      var joined := r.admitted + [NewEntry(cfg, r.q, task, payload, at, timeout)];
      (match answer
       case Queued => r.(q := q, admitted := joined)
       case Refused(_, _) => r.(q := q, refused := r.refused + [Turned(task, payload, at)])
       case Displaced(e) => r.(q := q, admitted := joined, displaced := r.displaced + [Dropped(e, at)]))
    case Take(at) =>
      var (q, next) := Pop(cfg, r.q, at);
      r.(q := q, taken := r.taken + if next.Some? then [next.value] else [])
    case Sweep(at) =>
      var (q, gone) := Expire(r.q, at);
      r.(q := q, expired := r.expired + gone)
  }

  function RunFrom(cfg: Config, r: Run, ops: seq<Op>): Run {
    if ops == [] then r else Apply(cfg, RunFrom(cfg, r, ops[..|ops| - 1]), ops[|ops| - 1])
  }

  predicate Timed(ops: seq<Op>) {
    forall i, j | 0 <= i < j < |ops| :: ops[i].at <= ops[j].at
  }

  lemma {:induction false} RunAppend(cfg: Config, r: Run, a: seq<Op>, b: seq<Op>)
    ensures RunFrom(cfg, r, a + b) == RunFrom(cfg, RunFrom(cfg, r, a), b)
    decreases |b|
  {
    if b == [] {
      assert a + b == a;
    } else {
      var last := |b| - 1;
      assert (a + b)[..|a + b| - 1] == a + b[..last];
      RunAppend(cfg, r, a, b[..last]);
    }
  }

  // ---- What every run keeps ----

  predicate Ordered(entries: seq<Entry>) {
    forall i, j | 0 <= i < j < |entries| ::
      entries[i].sequence < entries[j].sequence && entries[i].queuedAt <= entries[j].queuedAt
  }

  /** In arrival order, nothing from the future, and never more than the limit. */
  predicate WellFormed(cfg: Config, q: State, now: int) {
    && Ordered(q.entries)
    && (forall i | 0 <= i < |q.entries| :: q.entries[i].sequence < q.nextSequence && q.entries[i].queuedAt <= now)
    && (cfg.maxSize.Some? ==> |q.entries| <= cfg.maxSize.value)
  }

  lemma {:induction false} WithoutKeeps(cfg: Config, q: State, now: int, i: nat)
    requires WellFormed(cfg, q, now) && i < |q.entries|
    ensures WellFormed(cfg, q.(entries := Without(q.entries, i)), now)
    ensures multiset(q.entries) == multiset(Without(q.entries, i)) + multiset{q.entries[i]}
  {
    assert q.entries == q.entries[..i] + [q.entries[i]] + q.entries[i + 1..];
  }

  lemma {:induction false} SplitHolds(entries: seq<Entry>, now: int, b: bool)
    ensures forall i | 0 <= i < |Split(entries, now, b)| :: Expired(Split(entries, now, b)[i], now) == b
    ensures forall e | e in Split(entries, now, b) :: e in entries
  {
    if entries != [] {
      SplitHolds(entries[1..], now, b);
    }
  }

  lemma {:induction false} SplitCovers(entries: seq<Entry>, now: int)
    ensures multiset(entries) == multiset(Split(entries, now, false)) + multiset(Split(entries, now, true))
  {
    if entries != [] {
      var first, rest := entries[0], entries[1..];
      assert entries == [first] + rest;
      SplitCovers(rest, now);
      var b := Expired(first, now);
      assert Split(entries, now, b) == [first] + Split(rest, now, b);
      assert Split(entries, now, !b) == Split(rest, now, !b);
    }
  }

  lemma {:induction false} SplitOrdered(entries: seq<Entry>, now: int, b: bool)
    requires Ordered(entries)
    ensures Ordered(Split(entries, now, b))
  {
    if entries != [] {
      var first, rest := entries[0], Split(entries[1..], now, b);
      SplitOrdered(entries[1..], now, b);
      SplitHolds(entries[1..], now, b);
      forall i | 0 <= i < |rest| ensures first.sequence < rest[i].sequence && first.queuedAt <= rest[i].queuedAt {
        assert rest[i] in entries[1..];
        var k :| 0 <= k < |entries[1..]| && entries[1..][k] == rest[i];
        assert entries[k + 1] == rest[i];
      }
    }
  }

  /** A sweep is a stable partition by deadline: each part keeps the arrival order, holds
      exactly its own kind, and nothing is lost or made up. */
  lemma {:induction false} SweepPartitions(q: State, now: int)
    requires Ordered(q.entries)
    ensures var (kept, gone) := Expire(q, now);
            multiset(q.entries) == multiset(kept.entries) + multiset(gone) && Ordered(kept.entries) && Ordered(gone)
    ensures var (kept, gone) := Expire(q, now);
            && (forall i | 0 <= i < |gone| :: Expired(gone[i], now))
            && (forall i | 0 <= i < |kept.entries| :: !Expired(kept.entries[i], now))
  {
    SplitCovers(q.entries, now);
    SplitOrdered(q.entries, now, false);
    SplitOrdered(q.entries, now, true);
    SplitHolds(q.entries, now, false);
    SplitHolds(q.entries, now, true);
  }

  lemma {:induction false} SweepKeeps(cfg: Config, q: State, now: int)
    requires WellFormed(cfg, q, now)
    ensures WellFormed(cfg, Expire(q, now).0, now)
  {
    SplitCovers(q.entries, now);
    SplitOrdered(q.entries, now, false);
    SplitHolds(q.entries, now, false);
    var kept := Split(q.entries, now, false);
    forall i | 0 <= i < |kept| ensures kept[i].sequence < q.nextSequence && kept[i].queuedAt <= now {
      assert kept[i] in q.entries;
      var k :| 0 <= k < |q.entries| && q.entries[k] == kept[i];
    }
    assert |multiset(q.entries)| == |q.entries|;
    assert |multiset(kept)| == |kept|;
  }

  lemma {:induction false} ApplyKeeps(cfg: Config, r: Run, now: int, op: Op)
    requires WellFormed(cfg, r.q, now) && now <= op.at
    ensures WellFormed(cfg, Apply(cfg, r, op).q, op.at)
  {
    match op
    case Offer(at, task, _, _) =>
      var v := Victim(cfg, r.q, task, at);
      if v.Some? { WithoutKeeps(cfg, r.q, now, v.value); }
    case Take(at) =>
      if r.q.entries != [] { WithoutKeeps(cfg, r.q, now, Best(r.q.entries, at, cfg.aging, |r.q.entries|)); }
    case Sweep(at) => SweepKeeps(cfg, r.q, at);
  }

  /** The time of the last operation. */
  function Clock(ops: seq<Op>, start: int): int {
    if ops == [] then start else ops[|ops| - 1].at
  }

  predicate From(start: int, ops: seq<Op>) {
    Timed(ops) && (ops != [] ==> start <= ops[0].at)
  }

  lemma {:induction false} FromPrefix(start: int, ops: seq<Op>)
    requires From(start, ops) && ops != []
    ensures From(start, ops[..|ops| - 1]) && Clock(ops[..|ops| - 1], start) <= ops[|ops| - 1].at
  {}

  lemma {:induction false} RunWellFormed(cfg: Config, r: Run, start: int, ops: seq<Op>)
    requires WellFormed(cfg, r.q, start) && From(start, ops)
    ensures WellFormed(cfg, RunFrom(cfg, r, ops).q, Clock(ops, start))
    decreases |ops|
  {
    if ops != [] {
      var init := ops[..|ops| - 1];
      FromPrefix(start, ops);
      RunWellFormed(cfg, r, start, init);
      ApplyKeeps(cfg, RunFrom(cfg, r, init), Clock(init, start), ops[|ops| - 1]);
    }
  }

  // ---- Conservation ----

  function Offered(ops: seq<Op>): seq<(Task, nat)> {
    if ops == [] then []
    else
      var op := ops[|ops| - 1];
      Offered(ops[..|ops| - 1]) + if op.Offer? then [(op.task, op.payload)] else []
  }

  function Items(entries: seq<Entry>): seq<(Task, nat)> {
    seq(|entries|, i requires 0 <= i < |entries| => (entries[i].task, entries[i].payload))
  }

  function TurnedItems(refused: seq<Turned>): seq<(Task, nat)> {
    seq(|refused|, i requires 0 <= i < |refused| => (refused[i].task, refused[i].payload))
  }

  function DroppedEntries(displaced: seq<Dropped>): seq<Entry> {
    seq(|displaced|, i requires 0 <= i < |displaced| => displaced[i].entry)
  }

  function Gone(r: Run): multiset<Entry> {
    multiset(r.taken) + multiset(r.expired) + multiset(DroppedEntries(r.displaced))
  }

  /** Every admitted entry is still waiting or has gone, once. */
  predicate Accounted(r: Run) {
    multiset(r.admitted) == multiset(r.q.entries) + Gone(r)
  }

  predicate Numbered(r: Run) {
    && |r.admitted| == r.q.nextSequence
    && (forall i | 0 <= i < |r.admitted| :: r.admitted[i].sequence == i)
  }

  lemma {:induction false} DropAccounts(r: Run, after: Run, i: nat, e: Entry, at: int)
    requires Accounted(r) && i < |r.q.entries|
    requires var displaced := r.displaced + [Dropped(r.q.entries[i], at)];
             after == r.(q := after.q, admitted := r.admitted + [e], displaced := displaced)
    requires after.q.entries == Without(r.q.entries, i) + [e]
    ensures Accounted(after)
  {
    ItemsMiddle(r.q.entries, i);
    assert DroppedEntries(after.displaced) == DroppedEntries(r.displaced) + [r.q.entries[i]];
    assert Gone(after) == Gone(r) + multiset{r.q.entries[i]};
    assert multiset(after.q.entries) == multiset(Without(r.q.entries, i)) + multiset{e};
  }

  lemma {:induction false} OfferAccounts(cfg: Config, r: Run, op: Op)
    requires Accounted(r) && op.Offer?
    ensures Accounted(Apply(cfg, r, op))
  {
    var v, after := Victim(cfg, r.q, op.task, op.at), Apply(cfg, r, op);
    var e := NewEntry(cfg, r.q, op.task, op.payload, op.at, op.timeout);
    if !IsFull(cfg, r.q) {
      assert Gone(after) == Gone(r);
    } else if v.Some? {
      DropAccounts(r, after, v.value, e, op.at);
    } else {
      assert Gone(after) == Gone(r);
    }
  }

  lemma {:induction false} TakeAccounts(cfg: Config, r: Run, now: int, at: int)
    requires WellFormed(cfg, r.q, now) && Accounted(r)
    ensures Accounted(Apply(cfg, r, Take(at)))
  {
    var after := Apply(cfg, r, Take(at));
    if r.q.entries == [] {
      assert after.taken == r.taken;
    } else {
      var best := Best(r.q.entries, at, cfg.aging, |r.q.entries|);
      WithoutKeeps(cfg, r.q, now, best);
      assert after.taken == r.taken + [r.q.entries[best]];
      assert Gone(after) == Gone(r) + multiset{r.q.entries[best]};
    }
  }

  lemma {:induction false} SweepAccounts(cfg: Config, r: Run, at: int)
    requires Accounted(r)
    ensures Accounted(Apply(cfg, r, Sweep(at)))
  {
    var after := Apply(cfg, r, Sweep(at));
    SplitCovers(r.q.entries, at);
    hide Split;
    assert Gone(after) == Gone(r) + multiset(Split(r.q.entries, at, true));
  }

  lemma {:induction false} NothingYet(cfg: Config, start: int)
    ensures Accounted(Nothing) && Numbered(Nothing) && WellFormed(cfg, Nothing.q, start)
  {}

  lemma {:induction false} RunAccounts(cfg: Config, start: int, ops: seq<Op>)
    requires From(start, ops)
    ensures Accounted(RunFrom(cfg, Nothing, ops)) && Numbered(RunFrom(cfg, Nothing, ops))
    decreases |ops|
  {
    hide Accounted, Numbered, WellFormed, Apply, From;
    NothingYet(cfg, start);
    if ops != [] {
      var init, op := ops[..|ops| - 1], ops[|ops| - 1];
      FromPrefix(start, ops);
      RunAccounts(cfg, start, init);
      RunWellFormed(cfg, Nothing, start, init);
      var r, now := RunFrom(cfg, Nothing, init), Clock(init, start);
      ApplyNumbers(cfg, r, op);
      match op
      case Offer(_, _, _, _) => OfferAccounts(cfg, r, op);
      case Take(at) => TakeAccounts(cfg, r, now, at);
      case Sweep(at) => SweepAccounts(cfg, r, at);
    }
  }

  lemma {:induction false} ApplyNumbers(cfg: Config, r: Run, op: Op)
    requires Numbered(r)
    ensures Numbered(Apply(cfg, r, op))
  {}

  /** Admitted or refused. */
  function Answered(r: Run): multiset<(Task, nat)> {
    multiset(Items(r.admitted)) + multiset(TurnedItems(r.refused))
  }

  /** What one operation adds to the offered, the admitted and the refused. */
  lemma {:induction false} ApplyOffers(cfg: Config, r: Run, op: Op)
    ensures Answered(Apply(cfg, r, op)) == Answered(r) + if op.Offer? then multiset{(op.task, op.payload)} else multiset{}
  {
    if op.Offer? {
      var after := Apply(cfg, r, op);
      var e := NewEntry(cfg, r.q, op.task, op.payload, op.at, op.timeout);
      assert Items(r.admitted + [e]) == Items(r.admitted) + [(op.task, op.payload)];
      var turned := Turned(op.task, op.payload, op.at);
      assert TurnedItems(r.refused + [turned]) == TurnedItems(r.refused) + [(op.task, op.payload)];
    }
  }

  lemma {:induction false} OfferedAll(cfg: Config, ops: seq<Op>)
    ensures multiset(Offered(ops)) == Answered(RunFrom(cfg, Nothing, ops))
    decreases |ops|
  {
    if ops != [] {
      OfferedAll(cfg, ops[..|ops| - 1]);
      ApplyOffers(cfg, RunFrom(cfg, Nothing, ops[..|ops| - 1]), ops[|ops| - 1]);
    }
  }

  lemma {:induction false} ItemsSplit(a: seq<Entry>, b: seq<Entry>)
    ensures Items(a + b) == Items(a) + Items(b)
  {}

  lemma {:induction false} ItemsMiddle(s: seq<Entry>, k: nat)
    requires k < |s|
    ensures multiset(Items(s)) == multiset(Items(Without(s, k))) + multiset{(s[k].task, s[k].payload)}
    ensures multiset(s) == multiset(Without(s, k)) + multiset{s[k]}
  {
    assert s == s[..k] + [s[k]] + s[k + 1..];
    ItemsSplit(s[..k], s[k + 1..]);
    assert Items(s) == Items(s[..k]) + [(s[k].task, s[k].payload)] + Items(s[k + 1..]);
  }

  /** Counting by task and payload follows from counting by entry. */
  lemma {:induction false} ItemsFollow(a: seq<Entry>, b: seq<Entry>)
    requires multiset(a) == multiset(b)
    ensures multiset(Items(a)) == multiset(Items(b))
    decreases |a|
  {
    if a == [] {
      assert |multiset(b)| == 0;
    } else {
      assert a[0] in multiset(a);
      var k :| 0 <= k < |b| && b[k] == a[0];
      ItemsMiddle(a, 0);
      ItemsMiddle(b, k);
      assert multiset(Without(a, 0)) == multiset(a) - multiset{a[0]};
      assert multiset(Without(b, k)) == multiset(b) - multiset{a[0]};
      ItemsFollow(Without(a, 0), Without(b, k));
    }
  }

  /** Nothing is lost and nothing is answered twice: over any run, what was offered is
      exactly what waits, was taken, expired, was refused or gave way. Entries stay in
      strict arrival order and the limit holds throughout. */
  lemma {:induction false} Conservation(cfg: Config, ops: seq<Op>)
    requires Timed(ops)
    ensures var r := RunFrom(cfg, Nothing, ops);
            multiset(Offered(ops))
            == multiset(Items(r.q.entries)) + multiset(Items(r.taken)) + multiset(Items(r.expired))
               + multiset(Items(DroppedEntries(r.displaced))) + multiset(TurnedItems(r.refused))
    ensures var r := RunFrom(cfg, Nothing, ops);
            Ordered(r.q.entries) && (cfg.maxSize.Some? ==> |r.q.entries| <= cfg.maxSize.value)
    ensures var r := RunFrom(cfg, Nothing, ops); forall e :: (multiset(r.q.entries) + Gone(r))[e] <= 1
  {
    var start := if ops == [] then 0 else ops[0].at;
    RunAccounts(cfg, start, ops);
    OfferedAll(cfg, ops);
    RunWellFormed(cfg, Nothing, start, ops);
    var r := RunFrom(cfg, Nothing, ops);
    var dropped := DroppedEntries(r.displaced);
    ItemsFollow(r.admitted, r.q.entries + (r.taken + (r.expired + dropped)));
    ItemsSplit(r.q.entries, r.taken + (r.expired + dropped));
    ItemsSplit(r.taken, r.expired + dropped);
    ItemsSplit(r.expired, dropped);
    forall e ensures multiset(r.admitted)[e] <= 1 { OncePerSequence(r.admitted, e); }
  }

  lemma {:induction false} OncePerSequence(s: seq<Entry>, e: Entry)
    requires forall i | 0 <= i < |s| :: s[i].sequence == i
    ensures multiset(s)[e] <= 1
  {
    if s != [] {
      var init := s[..|s| - 1];
      assert s == init + [s[|s| - 1]];
      OncePerSequence(init, e);
    }
  }

  // ---- Precedence ----

  /** `x`, which came first, is never overtaken by `y`: its head start in waiting makes
      up for whatever `y` has in priority. */
  predicate Outranks(x: Entry, y: Entry, aging: nat) {
    if aging == 0 then x.task.priority >= y.task.priority
    else x.task.priority + Levels(x, y.queuedAt, aging) >= y.task.priority
  }

  lemma {:induction false} FloorsAdd(a: nat, b: nat, d: nat)
    requires d > 0
    ensures (a + b) / d >= a / d + b / d
  {
    var q := a / d + b / d;
    assert a + b == q * d + a % d + b % d by {
      assert a == (a / d) * d + a % d && b == (b / d) * d + b % d;
    }
    DivAtLeast(a + b, q, d);
  }

  lemma {:induction false} DivAtLeast(n: nat, q: nat, d: nat)
    requires d > 0 && n >= q * d
    ensures n / d >= q
  {
    assert n == (n / d) * d + n % d;
    Cancel(q, n / d + 1, d);
  }

  lemma {:induction false} Cancel(a: nat, b: nat, d: nat)
    requires a * d < b * d
    ensures a < b
  {}

  lemma {:induction false} HeadStartLasts(x: Entry, y: Entry, now: int, aging: nat)
    requires x.queuedAt <= y.queuedAt <= now && Outranks(x, y, aging)
    ensures Effective(x, now, aging) >= Effective(y, now, aging)
  {
    if aging > 0 { FloorsAdd(Waited(x, y.queuedAt), Waited(y, now), aging); }
  }

  /** Held positions follow arrival order. */
  lemma {:induction false} EarlierArrived(cfg: Config, q: State, now: int, x: Entry, y: Entry)
    requires WellFormed(cfg, q, now) && x in q.entries && y in q.entries && x.sequence < y.sequence
    ensures x.queuedAt <= y.queuedAt <= now
  {
    var i :| 0 <= i < |q.entries| && q.entries[i] == x;
    var j :| 0 <= j < |q.entries| && q.entries[j] == y;
    assert i < j;
  }

  lemma {:induction false} TakenIsFirst(cfg: Config, q: State, now: int, x: Entry, y: Entry)
    requires WellFormed(cfg, q, now) && x in q.entries && x.sequence < y.sequence
    requires Pop(cfg, q, now).1 == Some(y)
    ensures !Outranks(x, y, cfg.aging)
  {
    var best := Best(q.entries, now, cfg.aging, |q.entries|);
    var i :| 0 <= i < |q.entries| && q.entries[i] == x;
    assert Before(q.entries[best], q.entries[i], now, cfg.aging);
    EarlierArrived(cfg, q, now, x, y);
    if Outranks(x, y, cfg.aging) { HeadStartLasts(x, y, now, cfg.aging); }
  }

  lemma {:induction false} StillWellFormed(cfg: Config, q: State, now: int, later: int)
    requires WellFormed(cfg, q, now) && now <= later
    ensures WellFormed(cfg, q, later)
  {}

  /** In any run, whatever is taken while an earlier arrival still waits was not outranked
      by it. Arrival order within a priority is the case of equal priorities. */
  lemma {:induction false} Precedence(cfg: Config, ops: seq<Op>, at: int, x: Entry, y: Entry)
    requires Timed(ops + [Take(at)])
    requires x in RunFrom(cfg, Nothing, ops).q.entries && x.sequence < y.sequence
    requires Pop(cfg, RunFrom(cfg, Nothing, ops).q, at).1 == Some(y)
    ensures !Outranks(x, y, cfg.aging)
    ensures x.task.priority < y.task.priority
  {
    hide RunFrom, WellFormed, Pop;
    var all := ops + [Take(at)];
    var start := all[0].at;
    TimedSlices(all, |ops|);
    assert all[..|ops|] == ops;
    NothingYet(cfg, start);
    assert ops != [] ==> all[|ops| - 1].at <= all[|ops|].at;
    RunWellFormed(cfg, Nothing, start, ops);
    StillWellFormed(cfg, RunFrom(cfg, Nothing, ops).q, Clock(ops, start), at);
    TakenIsFirst(cfg, RunFrom(cfg, Nothing, ops).q, at, x, y);
  }

  /** Two tasks offered one after the other. */
  function InTurn(first: Task, second: Task, earlier: int, later: int): seq<Op> {
    [Offer(earlier, first, 0, None), Offer(later, second, 1, None)]
  }

  /** The bound is exact: two tasks offered one after the other, and one taken as the
      second arrives. The second goes first exactly when it is not outranked. */
  lemma {:induction false} PrecedenceIsExact(cfg: Config, first: Task, second: Task, earlier: int, later: int)
    requires cfg.maxSize == None && earlier <= later
    ensures Timed(InTurn(first, second, earlier, later))
    ensures var s := RunFrom(cfg, Nothing, InTurn(first, second, earlier, later)).q.entries;
            |s| == 2
    ensures var q := RunFrom(cfg, Nothing, InTurn(first, second, earlier, later)).q;
            |q.entries| == 2 ==>
              (Pop(cfg, q, later).1 == Some(q.entries[1]) <==> !Outranks(q.entries[0], q.entries[1], cfg.aging))
  {
    var a, b := Offer(earlier, first, 0, None), Offer(later, second, 1, None);
    var ops := [a, b];
    assert ops[..1] == [a] && [a][..0] == [];
    var one := Apply(cfg, Nothing, a);
    assert RunFrom(cfg, Nothing, [a]) == one;
    var two := Apply(cfg, one, b);
    assert RunFrom(cfg, Nothing, ops) == two;
    assert |two.q.entries| == 2;
    var x, y := two.q.entries[0], two.q.entries[1];
    assert Best(two.q.entries, later, cfg.aging, 1) == 0;
    if Outranks(x, y, cfg.aging) { HeadStartLasts(x, y, later, cfg.aging); }
  }

  // ---- No starvation ----

  /** Something that may yet be taken before `x`: it was here first, or came before `limit`. */
  predicate Threat(e: Entry, x: Entry, limit: int) {
    e.sequence < x.sequence || (e.sequence > x.sequence && e.queuedAt < limit)
  }

  function Threats(s: seq<Entry>, x: Entry, limit: int): nat {
    if s == [] then 0 else (if Threat(s[0], x, limit) then 1 else 0) + Threats(s[1..], x, limit)
  }

  lemma {:induction false} ThreatsAppend(a: seq<Entry>, b: seq<Entry>, x: Entry, limit: int)
    ensures Threats(a + b, x, limit) == Threats(a, x, limit) + Threats(b, x, limit)
  {
    if a == [] {
      assert a + b == b;
    } else {
      assert (a + b)[1..] == a[1..] + b;
      ThreatsAppend(a[1..], b, x, limit);
    }
  }

  lemma {:induction false} ThreatsWithout(s: seq<Entry>, i: nat, x: Entry, limit: int)
    requires i < |s|
    ensures Threats(s, x, limit) == Threats(Without(s, i), x, limit) + if Threat(s[i], x, limit) then 1 else 0
  {
    assert s == s[..i] + ([s[i]] + s[i + 1..]);
    ThreatsAppend(s[..i], [s[i]] + s[i + 1..], x, limit);
    ThreatsAppend([s[i]], s[i + 1..], x, limit);
    ThreatsAppend(s[..i], s[i + 1..], x, limit);
    assert Threats([s[i]], x, limit) == if Threat(s[i], x, limit) then 1 else 0;
  }

  lemma {:induction false} ThreatsKept(s: seq<Entry>, now: int, x: Entry, limit: int)
    ensures Threats(Split(s, now, false), x, limit) <= Threats(s, x, limit)
  {
    if s != [] {
      ThreatsKept(s[1..], now, x, limit);
      var rest := Split(s[1..], now, false);
      assert ([s[0]] + rest)[1..] == rest;
      assert [] + rest == rest;
    }
  }

  lemma {:induction false} ThreatsAtMost(s: seq<Entry>, x: Entry, limit: int)
    ensures Threats(s, x, limit) <= |s|
  {
    if s != [] { ThreatsAtMost(s[1..], x, limit); }
  }

  /** Offers made before `limit`. */
  function Arrivals(ops: seq<Op>, limit: int): nat {
    if ops == [] then 0
    else Arrivals(ops[..|ops| - 1], limit) + if ops[|ops| - 1].Offer? && ops[|ops| - 1].at < limit then 1 else 0
  }

  /** When waiting alone has made `x` as urgent as anything can be. */
  function Limit(cfg: Config, x: Entry): int {
    x.queuedAt + (CRITICAL - x.task.priority) * cfg.aging
  }

  /** After the limit nothing that arrives can overtake. */
  lemma {:induction false} LateComersWait(cfg: Config, x: Entry, y: Entry)
    requires cfg.aging > 0 && y.queuedAt >= Limit(cfg, x)
    ensures Outranks(x, y, cfg.aging)
  {
    var levels: nat := CRITICAL - x.task.priority;
    assert levels * cfg.aging >= 0;
    DivAtLeast(Waited(x, y.queuedAt), levels, cfg.aging);
  }

  lemma {:induction false} TakenIsThreat(cfg: Config, q: State, now: int, x: Entry)
    requires cfg.aging > 0 && WellFormed(cfg, q, now) && x in q.entries
    requires x in Pop(cfg, q, now).0.entries
    ensures Pop(cfg, q, now).1.Some? && Threat(Pop(cfg, q, now).1.value, x, Limit(cfg, x))
  {
    var y := Pop(cfg, q, now).1.value;
    var best := Best(q.entries, now, cfg.aging, |q.entries|);
    var k :| 0 <= k < |Without(q.entries, best)| && Without(q.entries, best)[k] == x;
    assert y.sequence != x.sequence;
    if y.sequence > x.sequence {
      TakenIsFirst(cfg, q, now, x, y);
      if y.queuedAt >= Limit(cfg, x) { LateComersWait(cfg, x, y); }
    }
  }

  /** Entries never come back: what waits after an operation waited before it, or just arrived. */
  lemma {:induction false} StillWaiting(cfg: Config, r: Run, now: int, op: Op, x: Entry)
    requires WellFormed(cfg, r.q, now) && x in Apply(cfg, r, op).q.entries && x.sequence < r.q.nextSequence
    ensures x in r.q.entries
  {
    if op.Sweep? { SplitHolds(r.q.entries, op.at, false); }
  }

  lemma {:induction false} ApplyThreatens(cfg: Config, r: Run, now: int, op: Op, x: Entry)
    requires cfg.aging > 0 && WellFormed(cfg, r.q, now) && now <= op.at
    requires x in r.q.entries && x in Apply(cfg, r, op).q.entries
    ensures var after, limit := Apply(cfg, r, op), Limit(cfg, x);
            |after.taken| + Threats(after.q.entries, x, limit)
            <= |r.taken| + Threats(r.q.entries, x, limit) + if op.Offer? && op.at < limit then 1 else 0
  {
    var limit := Limit(cfg, x);
    match op
    case Offer(at, task, payload, timeout) =>
      var v := Victim(cfg, r.q, task, at);
      var e := NewEntry(cfg, r.q, task, payload, at, timeout);
      assert Threats([e], x, limit) <= if at < limit then 1 else 0;
      ThreatsAppend(r.q.entries, [e], x, limit);
      if v.Some? {
        ThreatsWithout(r.q.entries, v.value, x, limit);
        ThreatsAppend(Without(r.q.entries, v.value), [e], x, limit);
      }
    case Take(at) =>
      TakenIsThreat(cfg, r.q.(entries := r.q.entries), at, x);
      ThreatsWithout(r.q.entries, Best(r.q.entries, at, cfg.aging, |r.q.entries|), x, limit);
    case Sweep(at) => ThreatsKept(r.q.entries, at, x, limit);
  }

  lemma {:induction false} RunThreatens(cfg: Config, r: Run, start: int, ops: seq<Op>, x: Entry)
    requires cfg.aging > 0 && WellFormed(cfg, r.q, start) && From(start, ops)
    requires x in r.q.entries && x in RunFrom(cfg, r, ops).q.entries
    ensures var after, limit := RunFrom(cfg, r, ops), Limit(cfg, x);
            |after.taken| + Threats(after.q.entries, x, limit)
            <= |r.taken| + Threats(r.q.entries, x, limit) + Arrivals(ops, limit)
    decreases |ops|
  {
    if ops != [] {
      var init, op := ops[..|ops| - 1], ops[|ops| - 1];
      FromPrefix(start, ops);
      var mid := RunFrom(cfg, r, init);
      RunWellFormed(cfg, r, start, init);
      Later(cfg, r, start, init, x);
      StillWaiting(cfg, mid, Clock(init, start), op, x);
      RunThreatens(cfg, r, start, init, x);
      ApplyThreatens(cfg, mid, Clock(init, start), op, x);
    }
  }

  /** Sequence numbers only grow. */
  lemma {:induction false} Later(cfg: Config, r: Run, start: int, ops: seq<Op>, x: Entry)
    requires WellFormed(cfg, r.q, start) && x in r.q.entries
    ensures x.sequence < r.q.nextSequence <= RunFrom(cfg, r, ops).q.nextSequence
    decreases |ops|
  {
    if ops != [] { Later(cfg, r, start, ops[..|ops| - 1], x); }
  }

  /** With ageing on nobody starves. `x` is the task the last of `ops` put in the queue;
      as long as it waits, no more are taken than were waiting when it came, plus those
      offered before its waiting alone made it critical. */
  lemma {:induction false} NoStarvation(cfg: Config, ops: seq<Op>, offer: Op, later: seq<Op>, x: Entry)
    requires cfg.aging > 0 && offer.Offer? && Timed(ops + [offer] + later)
    requires x == NewEntry(cfg, RunFrom(cfg, Nothing, ops).q, offer.task, offer.payload, offer.at, offer.timeout)
    requires x in RunFrom(cfg, Nothing, ops + [offer]).q.entries
    requires x in RunFrom(cfg, Nothing, ops + [offer] + later).q.entries
    ensures |RunFrom(cfg, Nothing, ops + [offer] + later).taken| - |RunFrom(cfg, Nothing, ops + [offer]).taken|
         <= |RunFrom(cfg, Nothing, ops).q.entries| + Arrivals(later, Limit(cfg, x))
  {
    var all := ops + [offer] + later;
    var early := ops + [offer];
    assert early == all[..|early|] && later == all[|early|..];
    var start, mid := all[0].at, offer.at;
    TimedSlices(all, |early|);
    TimedSlices(early, |ops|);
    assert ops == early[..|ops|];
    RunWellFormed(cfg, Nothing, start, early);
    RunAppend(cfg, Nothing, early, later);
    assert later != [] ==> all[|ops|].at <= all[|early|].at;
    var r := RunFrom(cfg, Nothing, early);
    RunThreatens(cfg, r, mid, later, x);
    var before := RunFrom(cfg, Nothing, ops).q;
    assert early[..|early| - 1] == ops;
    assert r == Apply(cfg, RunFrom(cfg, Nothing, ops), offer);
    var limit := Limit(cfg, x);
    JustArrived(cfg, before, offer, x, limit);
  }

  lemma {:induction false} TimedSlices(ops: seq<Op>, n: nat)
    requires Timed(ops) && n <= |ops|
    ensures Timed(ops[..n]) && Timed(ops[n..])
  {
    forall i, j | 0 <= i < j < |ops| - n ensures ops[n..][i].at <= ops[n..][j].at {
      assert ops[n + i].at <= ops[n + j].at;
    }
  }

  lemma {:induction false} JustArrived(cfg: Config, q: State, offer: Op, x: Entry, limit: int)
    requires offer.Offer? && x == NewEntry(cfg, q, offer.task, offer.payload, offer.at, offer.timeout)
    ensures Threats(Push(cfg, q, offer.task, offer.payload, offer.at, offer.timeout).0.entries, x, limit) <= |q.entries|
  {
    var after := Push(cfg, q, offer.task, offer.payload, offer.at, offer.timeout).0;
    assert Threats([x], x, limit) == 0;
    if after.entries == q.entries {
      ThreatsAtMost(q.entries, x, limit);
    } else {
      var rest := after.entries[..|after.entries| - 1];
      assert after.entries == rest + [x];
      ThreatsAppend(rest, [x], x, limit);
      ThreatsAtMost(rest, x, limit);
    }
  }

  // ---- What a full queue keeps ----

  predicate OnlyOffers(ops: seq<Op>) {
    forall i | 0 <= i < |ops| :: ops[i].Offer?
  }

  /** Everything that gave way was, at that moment, no more urgent than anything held. */
  predicate KeepsUrgent(cfg: Config, r: Run) {
    && (forall i, j | 0 <= i < |r.refused| && 0 <= j < |r.q.entries| ::
          r.refused[i].task.priority <= Effective(r.q.entries[j], r.refused[i].at, cfg.aging))
    && (forall i, j | 0 <= i < |r.displaced| && 0 <= j < |r.q.entries| ::
          Effective(r.displaced[i].entry, r.displaced[i].at, cfg.aging) <= Effective(r.q.entries[j], r.displaced[i].at, cfg.aging))
  }

  predicate PastUpTo(r: Run, now: int) {
    && (forall i | 0 <= i < |r.refused| :: r.refused[i].at <= now)
    && (forall i | 0 <= i < |r.displaced| :: r.displaced[i].at <= now)
  }

  predicate LossesMeanFull(cfg: Config, r: Run) {
    !IsFull(cfg, r.q) ==> r.refused == [] && r.displaced == []
  }

  lemma {:induction false} DivMonotone(a: nat, b: nat, d: nat)
    requires d > 0 && a <= b
    ensures a / d <= b / d
  {
    FloorsAdd(a, b - a, d);
  }

  lemma {:induction false} UrgencyGrows(e: Entry, now: int, later: int, aging: nat)
    requires now <= later
    ensures Effective(e, now, aging) <= Effective(e, later, aging)
  {
    if aging > 0 { DivMonotone(Waited(e, now), Waited(e, later), aging); }
  }

  /** A newcomer that displaced `victim` is more urgent than all who lost before. */
  lemma {:induction false} NewcomerOutdoes(cfg: Config, victim: Entry, e: Entry, at: int, now: int)
    requires at <= now && e.queuedAt == now && Effective(victim, now, cfg.aging) < e.task.priority
    ensures Effective(victim, at, cfg.aging) <= Effective(e, at, cfg.aging)
  {
    UrgencyGrows(victim, at, now, cfg.aging);
    assert Waited(e, at) == 0;
  }

  lemma {:induction false} OfferKeepsUrgent(cfg: Config, r: Run, now: int, op: Op)
    requires cfg.rejection == DropLowestPriority && op.Offer? && now <= op.at
    requires WellFormed(cfg, r.q, now) && KeepsUrgent(cfg, r) && PastUpTo(r, now) && LossesMeanFull(cfg, r)
    ensures KeepsUrgent(cfg, Apply(cfg, r, op)) && PastUpTo(Apply(cfg, r, op), op.at)
    ensures LossesMeanFull(cfg, Apply(cfg, r, op))
  {
    if IsFull(cfg, r.q) && Victim(cfg, r.q, op.task, op.at).Some? {
      var v := Victim(cfg, r.q, op.task, op.at).value;
      var victim := r.q.entries[v];
      var e := NewEntry(cfg, r.q, op.task, op.payload, op.at, op.timeout);
      var left := Without(r.q.entries, v);
      forall j | 0 <= j < |left| ensures left[j] in r.q.entries {}
      forall i | 0 <= i < |r.refused|
        ensures r.refused[i].task.priority <= Effective(e, r.refused[i].at, cfg.aging)
      {
        assert r.refused[i].task.priority <= Effective(r.q.entries[v], r.refused[i].at, cfg.aging);
        NewcomerOutdoes(cfg, victim, e, r.refused[i].at, op.at);
      }
      forall i | 0 <= i < |r.displaced|
        ensures Effective(r.displaced[i].entry, r.displaced[i].at, cfg.aging) <= Effective(e, r.displaced[i].at, cfg.aging)
      {
        assert Effective(r.displaced[i].entry, r.displaced[i].at, cfg.aging) <= Effective(r.q.entries[v], r.displaced[i].at, cfg.aging);
        NewcomerOutdoes(cfg, victim, e, r.displaced[i].at, op.at);
      }
      NewcomerOutdoes(cfg, victim, e, op.at, op.at);
    }
  }

  /** A full queue under drop-lowest-priority keeps what matters, over any run of offers. */
  lemma {:induction false} FullQueueKeepsUrgent(cfg: Config, ops: seq<Op>)
    requires cfg.rejection == DropLowestPriority && Timed(ops) && OnlyOffers(ops)
    ensures var r := RunFrom(cfg, Nothing, ops);
            KeepsUrgent(cfg, r) && LossesMeanFull(cfg, r) && (ops != [] ==> PastUpTo(r, ops[|ops| - 1].at))
    decreases |ops|
  {
    if ops != [] {
      var init, op, start := ops[..|ops| - 1], ops[|ops| - 1], ops[0].at;
      FromPrefix(start, ops);
      FullQueueKeepsUrgent(cfg, init);
      RunWellFormed(cfg, Nothing, start, init);
      OfferKeepsUrgent(cfg, RunFrom(cfg, Nothing, init), Clock(init, start), op);
    }
  }

  /** `f` waits, and is as urgent as `e`. */
  predicate Tied(q: State, now: int, aging: nat, e: Entry, f: Entry) {
    f in q.entries && Effective(f, now, aging) == Effective(e, now, aging)
  }

  /** Among the equally urgent it is the one that has waited longest that gives way. So the
      newest does exactly when there is no other at its urgency. */
  lemma {:induction false} LongestWaitGivesWay(cfg: Config, ops: seq<Op>, op: Op, e: Entry)
    requires cfg.rejection == DropLowestPriority && Timed(ops + [op]) && op.Offer?
    requires Push(cfg, RunFrom(cfg, Nothing, ops).q, op.task, op.payload, op.at, op.timeout).1 == Displaced(e)
    ensures var q := RunFrom(cfg, Nothing, ops).q;
            forall f | Tied(q, op.at, cfg.aging, e, f) ::
              f == e || (e.sequence < f.sequence && e.queuedAt <= f.queuedAt)
    ensures var q := RunFrom(cfg, Nothing, ops).q;
            (forall f | Tied(q, op.at, cfg.aging, e, f) :: f.sequence <= e.sequence)
            <==> (forall f | Tied(q, op.at, cfg.aging, e, f) :: f == e)
  {
    hide RunFrom, WellFormed, Tied;
    var all := ops + [op];
    TimedSlices(all, |ops|);
    assert all[..|ops|] == ops;
    assert ops != [] ==> all[|ops| - 1].at <= all[|ops|].at;
    NothingYet(cfg, all[0].at);
    RunWellFormed(cfg, Nothing, all[0].at, ops);
    var q := RunFrom(cfg, Nothing, ops).q;
    hide Push;
    forall f | Tied(q, op.at, cfg.aging, e, f) ensures f == e || (e.sequence < f.sequence && e.queuedAt <= f.queuedAt) {
      VictimCameFirst(cfg, q, Clock(ops, all[0].at), op, e, f);
    }
    VictimIsTied(cfg, q, op, e);
  }

  lemma {:induction false} VictimCameFirst(cfg: Config, q: State, now: int, op: Op, e: Entry, f: Entry)
    requires cfg.rejection == DropLowestPriority && op.Offer? && WellFormed(cfg, q, now)
    requires Push(cfg, q, op.task, op.payload, op.at, op.timeout).1 == Displaced(e)
    requires Tied(q, op.at, cfg.aging, e, f)
    ensures f == e || (e.sequence < f.sequence && e.queuedAt <= f.queuedAt)
  {
    var w := Worst(q.entries, op.at, cfg.aging, |q.entries|);
    var i :| 0 <= i < |q.entries| && q.entries[i] == f;
    assert GivesWay(q.entries[w], q.entries[i], op.at, cfg.aging);
  }

  lemma {:induction false} VictimIsTied(cfg: Config, q: State, op: Op, e: Entry)
    requires cfg.rejection == DropLowestPriority && op.Offer?
    requires Push(cfg, q, op.task, op.payload, op.at, op.timeout).1 == Displaced(e)
    ensures Tied(q, op.at, cfg.aging, e, e)
  {}
}
