/** What runs next when more is waiting than there are nodes: higher priority first,
    arrival order within a priority, and a level gained for every `aging` spent waiting.
    Time is counted in whole units from an arbitrary start. */
module Queues {
  import opened Core

  datatype Rejection = Reject | DropOldest | DropLowestPriority

  /** How the queue was configured. A limit or default deadline of zero means none, and is
      kept as `None`. */
  datatype Config = Config(aging: nat, maxSize: Option<nat>, timeout: Option<nat>, rejection: Rejection)

  datatype Entry = Entry(task: Task, payload: nat, queuedAt: int, deadline: Option<int>, sequence: nat)

  datatype State = State(entries: seq<Entry>, nextSequence: nat)

  datatype Admitted = Queued | Refused(task: Task, payload: nat) | Displaced(entry: Entry)

  // ---- Urgency ----

  function Waited(e: Entry, now: int): nat {
    if now >= e.queuedAt then now - e.queuedAt else 0
  }

  function Levels(e: Entry, now: int, aging: nat): nat
    requires aging > 0
  {
    Waited(e, now) / aging
  }

  /** The priority an entry is treated as, after waiting. */
  function Effective(e: Entry, now: int, aging: nat): Priority {
    if aging == 0 then e.task.priority
    else if e.task.priority + Levels(e, now, aging) >= CRITICAL then CRITICAL
    else e.task.priority + Levels(e, now, aging)
  }

  /** One promotion per level waited, and never more promotions than there are levels. */
  method EffectivePriority(e: Entry, now: int, aging: nat) returns (priority: Priority)
    ensures priority == Effective(e, now, aging)
  {
    priority := e.task.priority;
    if aging == 0 { return; }
    var levels := Waited(e, now) / aging;
    var rounds := if levels < 5 then levels else 5;
    for i := 0 to rounds
      invariant priority == if e.task.priority + i >= CRITICAL then CRITICAL else e.task.priority + i
    {
      priority := Promoted(priority);
    }
  }

  function Expired(e: Entry, now: int): bool {
    e.deadline.Some? && now >= e.deadline.value
  }

  // ---- Choosing ----

  /** `a` runs before `b`, or is `b`. */
  predicate Before(a: Entry, b: Entry, now: int, aging: nat) {
    || Effective(a, now, aging) > Effective(b, now, aging)
    || (Effective(a, now, aging) == Effective(b, now, aging) && a.sequence <= b.sequence)
  }

  /** The first among the first `n` entries. */
  function Best(entries: seq<Entry>, now: int, aging: nat, n: nat): (r: nat)
    requires 0 < n <= |entries|
    ensures r < n && forall i | 0 <= i < n :: Before(entries[r], entries[i], now, aging)
  {
    if n == 1 then 0
    else
      var b := Best(entries, now, aging, n - 1);
      if Before(entries[b], entries[n - 1], now, aging) then b else n - 1
  }

  /** `a` gives way before `b`, or is `b`: less urgent, then earlier. */
  predicate GivesWay(a: Entry, b: Entry, now: int, aging: nat) {
    || Effective(a, now, aging) < Effective(b, now, aging)
    || (Effective(a, now, aging) == Effective(b, now, aging) && a.sequence <= b.sequence)
  }

  function Worst(entries: seq<Entry>, now: int, aging: nat, n: nat): (r: nat)
    requires 0 < n <= |entries|
    ensures r < n && forall i | 0 <= i < n :: GivesWay(entries[r], entries[i], now, aging)
  {
    if n == 1 then 0
    else
      var b := Worst(entries, now, aging, n - 1);
      if GivesWay(entries[b], entries[n - 1], now, aging) then b else n - 1
  }

  function Oldest(entries: seq<Entry>, n: nat): (r: nat)
    requires 0 < n <= |entries|
    ensures r < n && forall i | 0 <= i < n :: entries[r].sequence <= entries[i].sequence
  {
    if n == 1 then 0
    else
      var b := Oldest(entries, n - 1);
      if entries[b].sequence <= entries[n - 1].sequence then b else n - 1
  }

  function Without(entries: seq<Entry>, i: nat): seq<Entry>
    requires i < |entries|
  {
    entries[..i] + entries[i + 1..]
  }

  // ---- The operations ----

  predicate IsFull(cfg: Config, q: State) {
    cfg.maxSize.Some? && |q.entries| >= cfg.maxSize.value
  }

  /** Which entry gives way to `incoming` in a full queue, if any does. */
  function Victim(cfg: Config, q: State, incoming: Task, now: int): (r: Option<nat>)
    ensures r.Some? ==> r.value < |q.entries|
  {
    if cfg.rejection == Reject || q.entries == [] then None
    else if cfg.rejection == DropOldest then Some(Oldest(q.entries, |q.entries|))
    else
      var worst := Worst(q.entries, now, cfg.aging, |q.entries|);
      if incoming.priority <= Effective(q.entries[worst], now, cfg.aging) then None else Some(worst)
  }

  function NewEntry(cfg: Config, q: State, task: Task, payload: nat, now: int, timeout: Option<nat>): Entry {
    var limit := if timeout.Some? then timeout else cfg.timeout;
    Entry(task, payload, now, if limit.Some? then Some(now + limit.value) else None, q.nextSequence)
  }

  function Enqueue(q: State, e: Entry): State {
    State(q.entries + [e], q.nextSequence + 1)
  }

  function Push(cfg: Config, q: State, task: Task, payload: nat, now: int, timeout: Option<nat>): (State, Admitted) {
    var e := NewEntry(cfg, q, task, payload, now, timeout);
    if !IsFull(cfg, q) then (Enqueue(q, e), Queued)
    else
      var v := Victim(cfg, q, task, now);
      if v.None? then (q, Refused(task, payload))
      else (Enqueue(q.(entries := Without(q.entries, v.value)), e), Displaced(q.entries[v.value]))
  }

  function Pop(cfg: Config, q: State, now: int): (State, Option<Entry>) {
    if q.entries == [] then (q, None)
    else
      var best := Best(q.entries, now, cfg.aging, |q.entries|);
      (q.(entries := Without(q.entries, best)), Some(q.entries[best]))
  }

  /** The entries whose deadline has passed, or those for which it has not, in order. */
  function Split(entries: seq<Entry>, now: int, expired: bool): seq<Entry> {
    if entries == [] then []
    else (if Expired(entries[0], now) == expired then [entries[0]] else []) + Split(entries[1..], now, expired)
  }

  function Expire(q: State, now: int): (State, seq<Entry>) {
    (q.(entries := Split(q.entries, now, false)), Split(q.entries, now, true))
  }

  class Queue {
    const cfg: Config
    var entries: seq<Entry>
    var nextSequence: nat

    function Now(): State
      reads this
    {
      State(entries, nextSequence)
    }

    constructor (cfg: Config)
      ensures this.cfg == cfg && Now() == State([], 0)
    {
      this.cfg := cfg;
      entries, nextSequence := [], 0;
    }

    method PushWithTimeout(task: Task, payload: nat, now: int, timeout: Option<nat>) returns (r: Admitted)
      modifies this
      ensures (Now(), r) == Push(cfg, old(Now()), task, payload, now, timeout)
    {
      var displaced := None;
      if IsFull(cfg, Now()) {
        displaced := MakeRoom(task, now);
        if displaced.None? { return Refused(task, payload); }
      }
      entries := entries + [NewEntry(cfg, Now(), task, payload, now, timeout)];
      nextSequence := nextSequence + 1;
      return if displaced.Some? then Displaced(displaced.value) else Queued;
    }

    /** Frees a slot according to the policy. */
    method MakeRoom(incoming: Task, now: int) returns (dropped: Option<Entry>)
      modifies this
      ensures nextSequence == old(nextSequence)
      ensures match Victim(cfg, old(Now()), incoming, now)
              case None => dropped == None && entries == old(entries)
              case Some(i) => dropped == Some(old(entries)[i]) && entries == Without(old(entries), i)
    {
      var v := Victim(cfg, Now(), incoming, now);
      if v.None? { return None; }
      dropped := Some(entries[v.value]);
      entries := Without(entries, v.value);
    }

    method PopNext(now: int) returns (r: Option<Entry>)
      modifies this
      ensures (Now(), r) == Pop(cfg, old(Now()), now)
    {
      if entries == [] { return None; }
      var best := Best(entries, now, cfg.aging, |entries|);
      r := Some(entries[best]);
      entries := Without(entries, best);
    }

    /** Walks the list, taking out what has expired. */
    method ExpireAll(now: int) returns (expired: seq<Entry>)
      modifies this
      ensures (Now(), expired) == Expire(old(Now()), now)
    {
      expired := [];
      var index := 0;
      while index < |entries|
        invariant 0 <= index <= |entries| && nextSequence == old(nextSequence)
        invariant entries[..index] + Split(entries[index..], now, false) == Split(old(entries), now, false)
        invariant expired + Split(entries[index..], now, true) == Split(old(entries), now, true)
        decreases |entries| - index
      {
        var rest := entries[index..];
        assert rest[1..] == entries[index + 1..];
        if Expired(entries[index], now) {
          expired := expired + [entries[index]];
          var fewer := Without(entries, index);
          assert fewer[index..] == rest[1..] && fewer[..index] == entries[..index];
          entries := fewer;
        } else {
          assert entries[..index + 1] == entries[..index] + [entries[index]];
          index := index + 1;
        }
      }
      assert entries[..index] + [] == entries && entries[index..] == [];
      assert expired + [] == expired;
    }
  }
}
