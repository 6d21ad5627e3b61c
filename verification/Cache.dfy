/** Remembering what a task already produced. */
module Caches {
  import opened Core

  /** What a task's work is, whichever submission asks for it. */
  datatype WorkKey = WorkKey(kind: string, payload: DataId, moduleId: Option<DataId>, inputs: seq<DataId>)

  function KeyOf(t: Task): WorkKey {
    WorkKey(t.kind, IdOf(t.payload), t.moduleId, t.inputs)
  }

  /** `output` is `None` for a task that ran and failed. */
  datatype TaskResult = TaskResult(taskId: nat, node: nat, output: Option<seq<byte>>)

  datatype Entry = Entry(result: TaskResult, stored: int)

  type Entries = map<WorkKey, Entry>

  /** Zero capacity stores nothing. */
  datatype Config = Config(capacity: nat, ttl: Option<nat>)

  function Elapsed(e: Entry, now: int): nat {
    if now >= e.stored then now - e.stored else 0
  }

  function Live(cfg: Config, entries: Entries, now: int): Entries {
    if cfg.ttl.None? then entries else map k | k in entries && Elapsed(entries[k], now) < cfg.ttl.value :: entries[k]
  }

  predicate Oldest(entries: Entries, k: WorkKey) {
    k in entries && forall j | j in entries :: entries[k].stored <= entries[j].stored
  }

  /** What is there after a lookup, and the answer: the stored result under the asker's id. */
  function Answer(cfg: Config, entries: Entries, t: Task, now: int): Option<TaskResult> {
    var live := Live(cfg, entries, now);
    if KeyOf(t) in live then Some(live[KeyOf(t)].result.(taskId := t.id)) else None
  }

  /** Whether storing can turn `entries` into `after`: when the cache is full, one of the
      oldest entries goes, and which of several equally old is not said. */
  ghost predicate Stores(cfg: Config, entries: Entries, t: Task, r: TaskResult, now: int, after: Entries) {
    if r.output.None? || cfg.capacity == 0 then after == entries
    else if |entries| < cfg.capacity then after == entries[KeyOf(t) := Entry(r, now)]
    else exists k :: Oldest(entries, k) && after == (entries - {k})[KeyOf(t) := Entry(r, now)]
  }

  lemma {:induction false} OldestExists(entries: Entries, keys: set<WorkKey>) returns (k: WorkKey)
    requires keys <= entries.Keys && keys != {}
    ensures k in keys && forall j | j in keys :: entries[k].stored <= entries[j].stored
    decreases |keys|
  {
    var x :| x in keys;
    if keys - {x} == {} {
      assert keys == {x};
      return x;
    }
    k := OldestExists(entries, keys - {x});
    if entries[x].stored < entries[k].stored { k := x; }
  }

  class ResultCache {
    const cfg: Config
    var entries: Entries
    var hits: nat
    var misses: nat

    constructor (cfg: Config)
      ensures this.cfg == cfg && entries == map[] && hits == misses == 0
    {
      this.cfg := cfg;
      entries, hits, misses := map[], 0, 0;
    }

    method Get(t: Task, now: int) returns (r: Option<TaskResult>)
      modifies this
      ensures r == Answer(cfg, old(entries), t, now) && entries == Live(cfg, old(entries), now)
      ensures (hits, misses) == if r.Some? then (old(hits) + 1, old(misses)) else (old(hits), old(misses) + 1)
    {
      var key := KeyOf(t);
      if cfg.ttl.Some? {
        entries := map k | k in entries && Elapsed(entries[k], now) < cfg.ttl.value :: entries[k];
      }
      if key in entries {
        hits := hits + 1;
        return Some(entries[key].result.(taskId := t.id));
      }
      misses := misses + 1;
      return None;
    }

    method Put(t: Task, r: TaskResult, now: int)
      modifies this`entries
      ensures Stores(cfg, old(entries), t, r, now, entries)
      ensures |old(entries)| <= cfg.capacity ==> |entries| <= cfg.capacity
    {
      if r.output.None? || cfg.capacity == 0 { return; }
      if |entries| >= cfg.capacity {
        ghost var some := OldestExists(entries, entries.Keys);
        assert Oldest(entries, some);
        var oldest :| oldest in entries && Oldest(entries, oldest);
        entries := entries - {oldest};
        FewerKeys(old(entries), oldest);
      }
      MoreKeys(entries, KeyOf(t), Entry(r, now));
      entries := entries[KeyOf(t) := Entry(r, now)];
    }

    method Clear()
      modifies this`entries
      ensures entries == map[]
      ensures forall t, now :: Answer(cfg, entries, t, now) == None
    {
      entries := map[];
    }
  }

  lemma {:induction false} FewerKeys(entries: Entries, k: WorkKey)
    requires k in entries
    ensures |entries - {k}| == |entries| - 1
  {
    assert (entries - {k}).Keys == entries.Keys - {k};
    assert |entries| == |entries.Keys| && |entries - {k}| == |(entries - {k}).Keys|;
  }

  lemma {:induction false} MoreKeys(entries: Entries, k: WorkKey, e: Entry)
    ensures |entries| <= |entries[k := e]| <= |entries| + 1
  {
    assert entries[k := e].Keys == entries.Keys + {k};
    assert |entries| == |entries.Keys| && |entries[k := e]| == |entries[k := e].Keys|;
    if k in entries { assert entries.Keys + {k} == entries.Keys; }
  }

  // ---- Whole runs ----

  /** Lookups and stores of any number of submissions, in any order; a submission stores
      only what running its task gave. */
  datatype Event = Get(task: Task, now: int) | Put(task: Task, result: TaskResult, now: int) | Clear

  /** Running the work, without a cache: the same work gives the same output, when it
      gives one. */
  type Executor = WorkKey -> seq<byte>

  predicate Genuine(run: Executor, e: Event) {
    e.Put? && e.result.output.Some? ==> e.result.taskId == e.task.id && e.result.output.value == run(KeyOf(e.task))
  }

  ghost predicate Next(cfg: Config, entries: Entries, e: Event, after: Entries) {
    match e
    case Get(_, now) => after == Live(cfg, entries, now)
    case Put(t, r, now) => Stores(cfg, entries, t, r, now, after)
    case Clear => after == map[]
  }

  /** `states` are the cache's contents before the first event and after each. */
  ghost predicate Runs(cfg: Config, events: seq<Event>, states: seq<Entries>) {
    && |states| == |events| + 1 && states[0] == map[]
    && forall i | 0 <= i < |events| :: Next(cfg, states[i], events[i], states[i + 1])
  }

  predicate AllGenuine(run: Executor, events: seq<Event>) {
    forall i | 0 <= i < |events| :: Genuine(run, events[i])
  }

  /** Stored at `from`: the result of the very work it is filed under. */
  predicate PutAt(events: seq<Event>, from: nat, k: WorkKey, e: Entry) {
    && from < |events| && events[from].Put? && KeyOf(events[from].task) == k
    && e == Entry(events[from].result, events[from].now) && e.result.output.Some?
  }

  /** Everything in the cache after `n` events came from one of them. */
  ghost predicate Traceable(events: seq<Event>, n: nat, entries: Entries) {
    forall k | k in entries :: exists from: nat :: from < n && PutAt(events, from, k, entries[k])
  }

  lemma {:induction false} StoresTraceable(cfg: Config, events: seq<Event>, n: nat, entries: Entries, after: Entries)
    requires n < |events| && events[n].Put? && Traceable(events, n, entries)
    requires Stores(cfg, entries, events[n].task, events[n].result, events[n].now, after)
    ensures Traceable(events, n + 1, after)
  {
    forall k | k in after ensures exists from: nat :: from < n + 1 && PutAt(events, from, k, after[k]) {
      if k in entries && after[k] == entries[k] {
        var from: nat :| from < n && PutAt(events, from, k, entries[k]);
        assert PutAt(events, from, k, after[k]);
      } else {
        assert PutAt(events, n, k, after[k]);
      }
    }
  }

  lemma {:induction false} StoresBounded(cfg: Config, entries: Entries, t: Task, r: TaskResult, now: int,
                                         after: Entries)
    requires |entries| <= cfg.capacity && Stores(cfg, entries, t, r, now, after)
    ensures |after| <= cfg.capacity
  {
    if r.output.Some? && cfg.capacity > 0 {
      if |entries| < cfg.capacity {
        MoreKeys(entries, KeyOf(t), Entry(r, now));
      } else {
        var k :| Oldest(entries, k) && after == (entries - {k})[KeyOf(t) := Entry(r, now)];
        FewerKeys(entries, k);
        MoreKeys(entries - {k}, KeyOf(t), Entry(r, now));
      }
    }
  }

  lemma {:induction false} LiveFewer(cfg: Config, entries: Entries, now: int)
    ensures |Live(cfg, entries, now)| <= |entries|
  {
    var live := Live(cfg, entries, now);
    assert live.Keys <= entries.Keys;
    SubsetSize(live.Keys, entries.Keys);
    assert |live| == |live.Keys| && |entries| == |entries.Keys|;
  }

  lemma {:induction false} NextTraces(cfg: Config, events: seq<Event>, n: nat, before: Entries, after: Entries)
    requires n < |events| && Traceable(events, n, before) && Next(cfg, before, events[n], after)
    ensures Traceable(events, n + 1, after)
  {
    if events[n].Put? {
      StoresTraceable(cfg, events, n, before, after);
    } else {
      forall k | k in after ensures exists from: nat :: from < n + 1 && PutAt(events, from, k, after[k]) {
        assert k in before && after[k] == before[k];
        var from: nat :| from < n && PutAt(events, from, k, before[k]);
        assert PutAt(events, from, k, after[k]);
      }
    }
  }

  lemma {:induction false} NextBounded(cfg: Config, before: Entries, e: Event, after: Entries)
    requires |before| <= cfg.capacity && Next(cfg, before, e, after)
    ensures |after| <= cfg.capacity
  {
    match e
    case Get(_, now) => LiveFewer(cfg, before, now);
    case Put(t, r, now) => StoresBounded(cfg, before, t, r, now, after);
    case Clear =>
  }

  lemma {:induction false} RunTraces(cfg: Config, events: seq<Event>, states: seq<Entries>, n: nat)
    requires Runs(cfg, events, states) && n <= |events|
    ensures Traceable(events, n, states[n]) && |states[n]| <= cfg.capacity
    decreases n
  {
    if n > 0 {
      var i := n - 1;
      RunTraces(cfg, events, states, i);
      assert Next(cfg, states[i], events[i], states[i + 1]);
      hide Traceable, Next;
      NextTraces(cfg, events, i, states[i], states[i + 1]);
      NextBounded(cfg, states[i], events[i], states[i + 1]);
    }
  }

  /** Two tasks share a key exactly when they are the same work. */
  lemma {:induction false} SameWork(a: Task, b: Task)
    ensures KeyOf(a) == KeyOf(b)
       <==> a.kind == b.kind && a.payload == b.payload && a.moduleId == b.moduleId && a.inputs == b.inputs
  {
    assert IdOf(a.payload).content == a.payload && IdOf(b.payload).content == b.payload;
  }

  /** Event `n` is a lookup the cache answers. */
  predicate Hits(cfg: Config, events: seq<Event>, states: seq<Entries>, n: nat) {
    && n < |events| && n < |states| && events[n].Get?
    && Answer(cfg, states[n], events[n].task, events[n].now).Some?
  }

  function Reply(cfg: Config, events: seq<Event>, states: seq<Entries>, n: nat): TaskResult
    requires Hits(cfg, events, states, n)
  {
    Answer(cfg, states[n], events[n].task, events[n].now).value
  }

  /** Whatever was stored, dropped or cleared before: an answer from the cache has the
      output that running the task would give, carries the asker's own id, comes from a
      success stored earlier and not longer ago than the time to live, and the cache never
      holds more than it may. */
  lemma {:induction false} CacheRefines(cfg: Config, run: Executor, events: seq<Event>, states: seq<Entries>, n: nat)
    requires Runs(cfg, events, states) && AllGenuine(run, events) && n <= |events|
    ensures |states[n]| <= cfg.capacity
    ensures Hits(cfg, events, states, n) ==> Reply(cfg, events, states, n).taskId == events[n].task.id
    ensures Hits(cfg, events, states, n) ==> Reply(cfg, events, states, n).output == Some(run(KeyOf(events[n].task)))
    ensures Hits(cfg, events, states, n) ==>
              exists from: nat :: from < n && Recalls(cfg, events, from, n, Reply(cfg, events, states, n))
  {
    RunTraces(cfg, events, states, n);
    if Hits(cfg, events, states, n) {
      var k := KeyOf(events[n].task);
      assert k in states[n];
      var from: nat :| from < n && PutAt(events, from, k, states[n][k]);
      assert Genuine(run, events[from]);
      assert Recalls(cfg, events, from, n, Reply(cfg, events, states, n));
    }
  }

  /** `r` is what event `from` stored, recalled by event `n` within the time to live. */
  predicate Recalls(cfg: Config, events: seq<Event>, from: nat, n: nat, r: TaskResult) {
    && from < n < |events| && events[from].Put? && events[n].Get?
    && r == events[from].result.(taskId := events[n].task.id) && r.output.Some?
    && (cfg.ttl.Some? ==> events[n].now - events[from].now < cfg.ttl.value)
  }

  // ---- When there is an answer ----

  /** Event `from` stored a success for the work `k`. */
  predicate Filed(cfg: Config, events: seq<Event>, from: nat, k: WorkKey) {
    && from < |events| && events[from].Put? && KeyOf(events[from].task) == k
    && events[from].result.output.Some? && cfg.capacity > 0
  }

  /** Event `i` drops `k` to make room. */
  predicate Evicts(events: seq<Event>, states: seq<Entries>, i: nat, k: WorkKey) {
    i < |events| && i + 1 < |states| && events[i].Put? && k in states[i] && k !in states[i + 1]
  }

  predicate Fresh(cfg: Config, stored: int, now: int) {
    match cfg.ttl
    case None => true
    case Some(ttl) => now - stored < ttl && ttl > 0
  }

  /** What event `from` filed has outlived event `i`: it was not cleared, not dropped to make
      room, and no lookup found it too old. */
  predicate Outlives(cfg: Config, events: seq<Event>, states: seq<Entries>, from: nat, i: nat, k: WorkKey)
    requires from < |events| && events[from].Put? && i < |events|
  {
    match events[i]
    case Clear => false
    case Get(_, now) => Fresh(cfg, events[from].now, now)
    case Put(_, _, _) => !Evicts(events, states, i, k)
  }

  /** What event `from` filed under `k` is what the cache has of it before event `n`. */
  predicate Lasts(cfg: Config, events: seq<Event>, states: seq<Entries>, from: nat, n: nat, k: WorkKey) {
    && n <= |events| && from < n && Filed(cfg, events, from, k)
    && (forall i | from < i < n :: !Filed(cfg, events, i, k) && Outlives(cfg, events, states, from, i, k))
  }

  lemma {:induction false} FreshIsLive(cfg: Config, entries: Entries, now: int, k: WorkKey)
    ensures k in Live(cfg, entries, now) <==> k in entries && Fresh(cfg, entries[k].stored, now)
    ensures k in Live(cfg, entries, now) ==> Live(cfg, entries, now)[k] == entries[k]
  {}

  /** What storing does to one key: the one filed is there as filed, any other as before
      unless it made room. */
  lemma {:induction false} StoresKey(cfg: Config, entries: Entries, t: Task, r: TaskResult, now: int, after: Entries,
                                     k: WorkKey)
    requires Stores(cfg, entries, t, r, now, after)
    ensures r.output.Some? && cfg.capacity > 0 && k == KeyOf(t) ==> k in after && after[k] == Entry(r, now)
    ensures !(r.output.Some? && cfg.capacity > 0 && k == KeyOf(t)) ==>
              (k in after ==> k in entries && after[k] == entries[k])
  {}

  lemma {:induction false} LastsMore(cfg: Config, events: seq<Event>, states: seq<Entries>, from: nat, n: nat,
                                     k: WorkKey)
    requires n < |events| && from < n
    ensures Lasts(cfg, events, states, from, n + 1, k)
       <==> && Lasts(cfg, events, states, from, n, k)
            && !Filed(cfg, events, n, k) && Outlives(cfg, events, states, from, n, k)
  {
    hide Filed;
    if Filed(cfg, events, from, k) { assert events[from].Put? by { FiledPut(cfg, events, from, k); } }
  }

  lemma {:induction false} FiledPut(cfg: Config, events: seq<Event>, from: nat, k: WorkKey)
    requires Filed(cfg, events, from, k)
    ensures from < |events| && events[from].Put?
  {}

  /** One event that does not file `k` itself. */
  lemma {:induction false} KeyStays(cfg: Config, events: seq<Event>, states: seq<Entries>, from: nat, i: nat, k: WorkKey)
    requires i < |events| && i + 1 < |states| && Next(cfg, states[i], events[i], states[i + 1])
    requires !Filed(cfg, events, i, k)
    ensures k in states[i + 1] ==> k in states[i] && states[i + 1][k] == states[i][k]
    ensures from < |events| && events[from].Put? && k in states[i] && states[i][k].stored == events[from].now ==>
              (k in states[i + 1] <==> Outlives(cfg, events, states, from, i, k))
  {
    match events[i]
    case Clear =>
    case Get(_, now) => FreshIsLive(cfg, states[i], now, k);
    case Put(t, r, now) => StoresKey(cfg, states[i], t, r, now, states[i + 1], k);
  }

  /** Before event `n` the cache has `k`, as event `from` filed it. */
  predicate HasFrom(events: seq<Event>, states: seq<Entries>, from: nat, n: nat, k: WorkKey) {
    && from < |events| && events[from].Put? && n < |states|
    && k in states[n] && states[n][k] == Entry(events[from].result, events[from].now)
  }

  lemma {:induction false} HasMore(cfg: Config, events: seq<Event>, states: seq<Entries>, from: nat, n: nat, k: WorkKey)
    requires n < |events| && n + 1 < |states| && Next(cfg, states[n], events[n], states[n + 1])
    requires Lasts(cfg, events, states, from, n, k) ==> HasFrom(events, states, from, n, k)
    ensures Lasts(cfg, events, states, from, n + 1, k) ==> HasFrom(events, states, from, n + 1, k)
  {
    hide Next, Outlives;
    if Lasts(cfg, events, states, from, n + 1, k) {
      if from == n {
        FiledThere(cfg, events, states, n, k);
      } else {
        LastsMore(cfg, events, states, from, n, k);
        KeyStays(cfg, events, states, from, n, k);
      }
    }
  }

  lemma {:induction false} FiledThere(cfg: Config, events: seq<Event>, states: seq<Entries>, n: nat, k: WorkKey)
    requires n < |events| && n + 1 < |states| && Next(cfg, states[n], events[n], states[n + 1])
    requires Filed(cfg, events, n, k)
    ensures HasFrom(events, states, n, n + 1, k)
  {
    var e := events[n];
    StoresKey(cfg, states[n], e.task, e.result, e.now, states[n + 1], k);
  }

  /** What was last filed and lasts is there. */
  lemma {:induction false} LastsIsThere(cfg: Config, events: seq<Event>, states: seq<Entries>, from: nat, n: nat,
                                        k: WorkKey)
    requires Runs(cfg, events, states) && n <= |events|
    ensures Lasts(cfg, events, states, from, n, k) ==> HasFrom(events, states, from, n, k)
    decreases n
  {
    if n > 0 {
      hide Lasts, HasFrom, Next;
      var i := n - 1;
      LastsIsThere(cfg, events, states, from, i, k);
      assert Next(cfg, states[i], events[i], states[i + 1]);
      HasMore(cfg, events, states, from, i, k);
    }
  }

  /** What is there was filed, and lasts. */
  lemma {:induction false} ThereWasFiled(cfg: Config, events: seq<Event>, states: seq<Entries>, n: nat, k: WorkKey)
    returns (from: nat)
    requires Runs(cfg, events, states) && n <= |events| && k in states[n]
    ensures Lasts(cfg, events, states, from, n, k)
    decreases n
  {
    var i := n - 1;
    assert Next(cfg, states[i], events[i], states[i + 1]);
    hide Next, Outlives;
    if Filed(cfg, events, i, k) {
      from := i;
    } else {
      KeyStays(cfg, events, states, 0, i, k);
      from := ThereWasFiled(cfg, events, states, i, k);
      LastsIsThere(cfg, events, states, from, i, k);
      KeyStays(cfg, events, states, from, i, k);
      LastsMore(cfg, events, states, from, i, k);
    }
  }

  /** In every run a lookup finds an answer exactly when a success of the same work was filed
      and not cleared, dropped or found too old since, and is not too old now; and then it is
      the last one filed. */
  lemma {:induction false} HitsExactly(cfg: Config, events: seq<Event>, states: seq<Entries>, n: nat, from: nat)
    requires Runs(cfg, events, states) && n < |events| && events[n].Get?
    ensures Hits(cfg, events, states, n)
       <==> exists f: nat :: Lasts(cfg, events, states, f, n, KeyOf(events[n].task))
                             && Fresh(cfg, events[f].now, events[n].now)
    ensures Lasts(cfg, events, states, from, n, KeyOf(events[n].task)) && Fresh(cfg, events[from].now, events[n].now) ==>
              && Hits(cfg, events, states, n)
              && Answer(cfg, states[n], events[n].task, events[n].now)
                 == Some(events[from].result.(taskId := events[n].task.id))
  {
    var k, now := KeyOf(events[n].task), events[n].now;
    FreshIsLive(cfg, states[n], now, k);
    hide Runs, Live;
    if Hits(cfg, events, states, n) {
      var f := ThereWasFiled(cfg, events, states, n, k);
      LastsIsThere(cfg, events, states, f, n, k);
      assert Fresh(cfg, events[f].now, now);
    }
    forall f: nat | Lasts(cfg, events, states, f, n, k) && Fresh(cfg, events[f].now, now)
      ensures Hits(cfg, events, states, n)
    {
      LastsIsThere(cfg, events, states, f, n, k);
    }
    LastsIsThere(cfg, events, states, from, n, k);
  }

  /** Whoever is dropped to make room was filed no later than anybody else there, the cache
      was full, and it was another success that needed the room. */
  lemma {:induction false} EvictsOldest(cfg: Config, events: seq<Event>, states: seq<Entries>, i: nat, k: WorkKey,
                                        from: nat, other: WorkKey, f: nat)
    requires Runs(cfg, events, states) && Evicts(events, states, i, k)
    requires Lasts(cfg, events, states, from, i, k) && Lasts(cfg, events, states, f, i, other)
    ensures |states[i]| >= cfg.capacity && events[i].result.output.Some? && KeyOf(events[i].task) != k
    ensures events[from].now <= events[f].now
  {
    assert Next(cfg, states[i], events[i], states[i + 1]);
    LastsIsThere(cfg, events, states, from, i, k);
    LastsIsThere(cfg, events, states, f, i, other);
  }

  /** A success is always stored, if anything is, and a full cache always drops one entry for
      it, filed no later than any other, even to store the same work again. */
  lemma {:induction false} StoringExactly(cfg: Config, events: seq<Event>, states: seq<Entries>, i: nat)
    returns (dropped: set<WorkKey>)
    requires Runs(cfg, events, states) && i < |events| && events[i].Put?
    requires Filed(cfg, events, i, KeyOf(events[i].task))
    ensures states[i + 1].Keys == states[i].Keys - dropped + {KeyOf(events[i].task)}
    ensures |states[i]| < cfg.capacity ==> dropped == {}
    ensures |states[i]| >= cfg.capacity ==>
              exists k, from: nat :: dropped == {k} && FiledFirst(cfg, events, states, from, i, k)
  {
    assert Next(cfg, states[i], events[i], states[i + 1]);
    var e := events[i];
    dropped := {};
    if |states[i]| >= cfg.capacity {
      var k :| Oldest(states[i], k) && states[i + 1] == (states[i] - {k})[KeyOf(e.task) := Entry(e.result, e.now)];
      dropped := {k};
      var from := ThereWasFiled(cfg, events, states, i, k);
      LastsIsThere(cfg, events, states, from, i, k);
      forall other, f: nat | Lasts(cfg, events, states, f, i, other) ensures events[from].now <= events[f].now {
        LastsIsThere(cfg, events, states, f, i, other);
      }
      assert FiledFirst(cfg, events, states, from, i, k);
    }
  }

  /** What event `from` filed under `k` is there before event `i`, and nothing that is was
      filed earlier. */
  ghost predicate FiledFirst(cfg: Config, events: seq<Event>, states: seq<Entries>, from: nat, i: nat, k: WorkKey) {
    && Lasts(cfg, events, states, from, i, k)
    && (forall other, f: nat | Lasts(cfg, events, states, f, i, other) :: events[from].now <= events[f].now)
  }
}
