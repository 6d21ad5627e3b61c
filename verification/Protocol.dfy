/** How a task reaches a node: its inputs move under a lock per node and dataset, the
    catalog decides what is sent, one first-in first-out connection carries data and
    assignment, and a node that cannot be reached is set aside for the next. */
module Protocol {
  import opened Core

  type Node = nat
  type LockId = nat

  /** One dataset going to one node. */
  datatype Key = Key(node: Node, data: DataId)

  function Get<K>(m: map<K, nat>, k: K): nat {
    if k in m then m[k] else 0
  }

  // ---- The map of transfer locks ----

  /** `strong` counts the references to each lock: the map's own and every handle's. */
  datatype Locks = Locks(transfers: map<Key, LockId>, strong: map<LockId, nat>, next: LockId)

  function Counted(l: Locks, lock: LockId, count: nat): Locks {
    l.(strong := l.strong[lock := count])
  }

  function LockFor(l: Locks, k: Key): LockId {
    if k in l.transfers then l.transfers[k] else l.next
  }

  /** Finds or makes the lock for `k` and takes one more reference to it. */
  function Taken(l: Locks, k: Key): Locks {
    if k in l.transfers then Counted(l, l.transfers[k], Get(l.strong, l.transfers[k]) + 1)
    else Locks(l.transfers[k := l.next], l.strong[l.next := 2], l.next + 1)
  }

  function Dropped(l: Locks, lock: LockId): Locks {
    Counted(l, lock, if Get(l.strong, lock) > 0 then Get(l.strong, lock) - 1 else 0)
  }

  /** Removes the lock from the map when the only references are the map's and the
      caller's. The caller's own handle is still there afterwards. */
  function Released(l: Locks, k: Key, lock: LockId): Locks {
    if Get(l.strong, lock) <= 2 && k in l.transfers
    then Dropped(l.(transfers := l.transfers - {k}), l.transfers[k])
    else l
  }

  // ---- The count of tasks out on each node ----

  function Begun(inFlight: map<Node, nat>, n: Node): map<Node, nat> {
    inFlight[n := Get(inFlight, n) + 1]
  }

  function Finished(inFlight: map<Node, nat>, n: Node): map<Node, nat> {
    if n !in inFlight then inFlight
    else if inFlight[n] <= 1 then inFlight - {n}
    else inFlight[n := inFlight[n] - 1]
  }

  // ---- The catalog ----

  function OnNode(catalog: set<Key>, n: Node): set<Key> {
    set k | k in catalog && k.node == n
  }

  /** The shared tables, each changed under its own mutex. */
  class Controller {
    var locks: Locks
    var inFlight: map<Node, nat>
    var catalog: set<Key>

    constructor ()
      ensures locks == Locks(map[], map[], 0) && inFlight == map[] && catalog == {}
    {
      locks, inFlight, catalog := Locks(map[], map[], 0), map[], {};
    }

    method TransferLock(node: Node, data: DataId) returns (lock: LockId)
      modifies this`locks
      ensures lock == LockFor(old(locks), Key(node, data)) && locks == Taken(old(locks), Key(node, data))
    {
      var k := Key(node, data);
      if k !in locks.transfers {
        lock := locks.next;
        locks := Locks(locks.transfers[k := lock], locks.strong[lock := 1], lock + 1);
      } else {
        lock := locks.transfers[k];
      }
      locks := Counted(locks, lock, Get(locks.strong, lock) + 1);
      assert old(locks).strong[old(locks).next := 1][old(locks).next := 2] == old(locks).strong[old(locks).next := 2];
    }

    method ReleaseTransfer(node: Node, data: DataId, lock: LockId)
      modifies this`locks
      ensures locks == Released(old(locks), Key(node, data), lock)
    {
      var k := Key(node, data);
      if Get(locks.strong, lock) <= 2 && k in locks.transfers {
        var removed := locks.transfers[k];
        locks := locks.(transfers := locks.transfers - {k});
        locks := Dropped(locks, removed);
      }
    }

    method BeginOn(node: Node)
      modifies this`inFlight
      ensures inFlight == Begun(old(inFlight), node)
    {
      if node !in inFlight { inFlight := inFlight[node := 0]; }
      inFlight := inFlight[node := inFlight[node] + 1];
    }

    method FinishedOn(node: Node)
      modifies this`inFlight
      ensures inFlight == Finished(old(inFlight), node)
    {
      if node in inFlight {
        inFlight := inFlight[node := if inFlight[node] > 0 then inFlight[node] - 1 else 0];
        if inFlight[node] == 0 { inFlight := inFlight - {node}; }
      }
    }

    method ForgetNode(node: Node)
      modifies this`catalog
      ensures catalog == old(catalog) - OnNode(old(catalog), node)
      ensures forall k :: k in catalog <==> k in old(catalog) && k.node != node
    {
      catalog := catalog - OnNode(catalog, node);
    }
  }

  // ---- Submissions ----

  /** How an attempt ended: a result from a node with the output it left there, an error
      another node may cure, or one that none can. */
  datatype Outcome = Success(from: Node, output: Option<DataId>) | Failure(cause: Cause)

  datatype Cause = Unreachable | Hopeless

  /** Where a transfer stands. The mutex is held from `Holding` to `Unlocking` and while
      `Failing`; the handle is kept until the transfer is over. */
  datatype Stage =
    | Waiting
    | Holding
    | Sending
    | Sent
    | Unlocking
    | Releasing
    | Dropping
    | Failing(error: Cause)
    | FailDropping(error: Cause)

  datatype Place =
    | Choosing
    | Next(i: nat)
    | Moving(i: nat, lock: LockId, stage: Stage)
    | Awaiting
    | Landed(outcome: Outcome)
    | Deciding(outcome: Outcome)
    | Done
    | Cancelled

  /** One call of submit. `tried` lists the nodes of its attempts, the last the current. */
  datatype Thread = Thread(inputs: seq<DataId>, at: Place, tried: seq<Node>)

  datatype Message = Data(data: DataId) | Assignment(thread: nat, inputs: seq<DataId>)

  /** `sends` and `forgets` remember how often a pair was sent whole and dropped from the
      catalog. */
  datatype World = World(
    threads: seq<Thread>,
    locks: Locks,
    catalog: set<Key>,
    inFlight: map<Node, nat>,
    library: set<DataId>,
    queued: map<Node, seq<Message>>,
    stores: map<Node, set<DataId>>,
    executing: set<(nat, Node)>,
    results: set<(nat, Node, Option<DataId>)>,
    sends: map<Key, nat>,
    forgets: map<Key, nat>)

  datatype Params = Params(maxAttempts: nat, reuse: bool, nodes: set<Node>)

  const Empty := World([], Locks(map[], map[], 0), {}, map[], {}, map[], map[], {}, {}, map[], map[])

  datatype Event =
    // a submission's own steps
    | Start(inputs: seq<DataId>)
    | Choose(t: nat, pick: Option<Node>)
    | WantLock(t: nat)
    | Lock(t: nat)
    | Skip(t: nat)
    | Check(t: nat)
    | SendWhole(t: nat)
    | SendFails(t: nat)
    | Record(t: nat)
    | Unlock(t: nat)
    | Release(t: nat)
    | Drop(t: nat)
    | FailUnlock(t: nat)
    | FailDrop(t: nat)
    | Assign(t: nat)
    | AssignFails(t: nat)
    | Answer(t: nat, from: Node, output: Option<DataId>)
    | GiveUpWaiting(t: nat)
    | CountDown(t: nat)
    | Decide(t: nat)
    | Cancel(t: nat)
    // the rest of the controller, and the agents
    | Publish(data: DataId)
    | Forget(keys: set<Key>)
    | Held(node: Node, data: DataId)
    | Handle(node: Node)
    | Execute(thread: nat, node: Node, output: Option<DataId>)

  predicate Busy(th: Thread) {
    th.tried != []
  }

  function NodeOf(th: Thread): Node {
    if th.tried == [] then 0 else th.tried[|th.tried| - 1]
  }

  /** The pair a moving thread is concerned with. */
  function KeyOf(th: Thread): Key {
    Key(NodeOf(th), if th.at.Moving? && th.at.i < |th.inputs| then th.inputs[th.at.i] else IdOf([]))
  }

  predicate Owns(th: Thread, lock: LockId) {
    && th.at.Moving? && th.at.lock == lock
    && (th.at.stage.Holding? || th.at.stage.Sending? || th.at.stage.Sent? || th.at.stage.Unlocking? || th.at.stage.Failing?)
  }

  predicate Free(w: World, lock: LockId) {
    forall t | 0 <= t < |w.threads| :: !Owns(w.threads[t], lock)
  }

  function Stored(w: World, n: Node): set<DataId> {
    if n in w.stores then w.stores[n] else {}
  }

  function Queue(w: World, n: Node): seq<Message> {
    if n in w.queued then w.queued[n] else []
  }

  predicate At(w: World, t: nat, stage: Stage) {
    t < |w.threads| && w.threads[t].at.Moving? && w.threads[t].at.stage == stage
  }

  predicate Ready(w: World, t: nat) {
    t < |w.threads| && w.threads[t].at.Next?
  }

  predicate Enabled(p: Params, w: World, e: Event) {
    match e
    case Start(_) => true
    case Choose(t, node) =>
      && t < |w.threads| && w.threads[t].at.Choosing?
      && (node.Some? ==> |w.threads[t].tried| < p.maxAttempts && node.value in p.nodes && node.value !in w.threads[t].tried)
    case WantLock(t) => Ready(w, t) && w.threads[t].at.i < |w.threads[t].inputs|
    case Lock(t) => At(w, t, Waiting) && Free(w, w.threads[t].at.lock)
    case Skip(t) => At(w, t, Holding) && p.reuse && KeyOf(w.threads[t]) in w.catalog
    case Check(t) => At(w, t, Holding) && !(p.reuse && KeyOf(w.threads[t]) in w.catalog)
    case SendWhole(t) => At(w, t, Sending)
    case SendFails(t) => At(w, t, Sending)
    case Record(t) => At(w, t, Sent)
    case Unlock(t) => At(w, t, Unlocking)
    case Release(t) => At(w, t, Releasing)
    case Drop(t) => At(w, t, Dropping)
    case FailUnlock(t) => t < |w.threads| && w.threads[t].at.Moving? && w.threads[t].at.stage.Failing?
    case FailDrop(t) => t < |w.threads| && w.threads[t].at.Moving? && w.threads[t].at.stage.FailDropping?
    case Assign(t) => Ready(w, t) && w.threads[t].at.i == |w.threads[t].inputs|
    case AssignFails(t) => Ready(w, t) && w.threads[t].at.i == |w.threads[t].inputs|
    case Answer(t, from, output) => t < |w.threads| && w.threads[t].at.Awaiting? && (t, from, output) in w.results
    case GiveUpWaiting(t) => t < |w.threads| && w.threads[t].at.Awaiting?
    case CountDown(t) => t < |w.threads| && w.threads[t].at.Landed?
    case Decide(t) => t < |w.threads| && w.threads[t].at.Deciding?
    case Cancel(t) =>
      // Wherever a submission awaits: between attempts, for a lock, while chunks are on
      // their way under it, and for the result.
      t < |w.threads| && (w.threads[t].at.Choosing? || At(w, t, Waiting) || At(w, t, Sending) || w.threads[t].at.Awaiting?)
    case Publish(_) => true
    case Forget(_) => true
    case Held(n, d) => d in Stored(w, n)
    case Handle(n) => Queue(w, n) != []
    case Execute(t, n, _) => (t, n) in w.executing
  }

  /** A step of one submission; the others are the rest of the controller's, or an agent's. */
  predicate Acts(e: Event) {
    !(e.Start? || e.Publish? || e.Forget? || e.Held? || e.Handle? || e.Execute?)
  }

  predicate Retries(p: Params, th: Thread) {
    th.at.Deciding? && th.at.outcome == Failure(Unreachable) && |th.tried| < p.maxAttempts
  }

  // What a step does, table by table.

  function PlaceAfter(p: Params, w: World, e: Event): Place
    requires Enabled(p, w, e) && Acts(e)
  {
    var th := w.threads[e.t];
    match e
    case Choose(_, node) => if node.Some? then Next(0) else Done
    case WantLock(_) => Moving(th.at.i, LockFor(w.locks, Key(NodeOf(th), th.inputs[th.at.i])), Waiting)
    case Lock(_) => th.at.(stage := Holding)
    case Skip(_) => th.at.(stage := Unlocking)
    case Check(_) => th.at.(stage := if KeyOf(th).data in w.library then Sending else Failing(Hopeless))
    case SendWhole(_) => th.at.(stage := Sent)
    case SendFails(_) => th.at.(stage := Failing(Unreachable))
    case Record(_) => th.at.(stage := Unlocking)
    case Unlock(_) => th.at.(stage := Releasing)
    case Release(_) => th.at.(stage := Dropping)
    case Drop(_) => Next(th.at.i + 1)
    case FailUnlock(_) => th.at.(stage := FailDropping(th.at.stage.error))
    case FailDrop(_) => Landed(Failure(th.at.stage.error))
    case Assign(_) => Awaiting
    case AssignFails(_) => Landed(Failure(Unreachable))
    case Answer(_, from, output) => Landed(Success(from, output))
    case GiveUpWaiting(_) => Landed(Failure(Unreachable))
    case CountDown(_) => Deciding(th.at.outcome)
    case Decide(_) => if Retries(p, th) then Choosing else Done
    case Cancel(_) => if th.at.Choosing? then Done else Cancelled
  }

  function ThreadAfter(p: Params, w: World, e: Event): Thread
    requires Enabled(p, w, e) && Acts(e)
  {
    var th := w.threads[e.t];
    Thread(th.inputs, PlaceAfter(p, w, e), if e.Choose? && e.pick.Some? then th.tried + [e.pick.value] else th.tried)
  }

  function ThreadsAfter(p: Params, w: World, e: Event): seq<Thread>
    requires Enabled(p, w, e)
  {
    if Acts(e) then w.threads[e.t := ThreadAfter(p, w, e)]
    else if e.Start? then w.threads + [Thread(e.inputs, Choosing, [])]
    else w.threads
  }

  function LocksAfter(p: Params, w: World, e: Event): Locks
    requires Enabled(p, w, e)
  {
    match e
    case WantLock(t) => Taken(w.locks, Key(NodeOf(w.threads[t]), w.threads[t].inputs[w.threads[t].at.i]))
    case Release(t) => Released(w.locks, KeyOf(w.threads[t]), w.threads[t].at.lock)
    case Drop(t) => Dropped(w.locks, w.threads[t].at.lock)
    case FailDrop(t) => Dropped(w.locks, w.threads[t].at.lock)
    case Cancel(t) => if w.threads[t].at.Moving? then Dropped(w.locks, w.threads[t].at.lock) else w.locks
    case _ => w.locks
  }

  /** The pairs the catalog is told to forget. */
  function Gone(p: Params, w: World, e: Event): set<Key>
    requires Enabled(p, w, e)
  {
    match e
    case Decide(t) => if Retries(p, w.threads[t]) then OnNode(w.catalog, NodeOf(w.threads[t])) else {}
    case Forget(keys) => keys * w.catalog
    case _ => {}
  }

  /** The pairs it is told of. An output is where it was produced, and with the controller. */
  function Learned(p: Params, w: World, e: Event): set<Key>
    requires Enabled(p, w, e)
  {
    match e
    case Record(t) => {KeyOf(w.threads[t])}
    case Decide(t) =>
      var o := w.threads[t].at.outcome;
      if o.Success? && o.output.Some? then {Key(o.from, o.output.value)} else {}
    case Held(n, d) => {Key(n, d)}
    case _ => {}
  }

  function InFlightAfter(p: Params, w: World, e: Event): map<Node, nat>
    requires Enabled(p, w, e)
  {
    match e
    case Choose(_, pick) => if pick.Some? then Begun(w.inFlight, pick.value) else w.inFlight
    case CountDown(t) => Finished(w.inFlight, NodeOf(w.threads[t]))
    case _ => w.inFlight
  }

  function LibraryAfter(p: Params, w: World, e: Event): set<DataId>
    requires Enabled(p, w, e)
  {
    match e
    case Publish(d) => w.library + {d}
    case Decide(_) => w.library + set k | k in Learned(p, w, e) :: k.data
    case _ => w.library
  }

  function Post(w: World, n: Node, m: Message): map<Node, seq<Message>> {
    w.queued[n := Queue(w, n) + [m]]
  }

  /** Data and assignments join the same connection; the agent takes the oldest. */
  function QueuedAfter(p: Params, w: World, e: Event): map<Node, seq<Message>>
    requires Enabled(p, w, e)
  {
    match e
    case SendWhole(t) => Post(w, NodeOf(w.threads[t]), Data(KeyOf(w.threads[t]).data))
    case Assign(t) => Post(w, NodeOf(w.threads[t]), Assignment(t, w.threads[t].inputs))
    case Handle(n) => w.queued[n := Queue(w, n)[1..]]
    case _ => w.queued
  }

  /** What a node comes to hold: data sent to it, and the output of a task it ran, which
      is stored before the result is reported. */
  function Kept(p: Params, w: World, e: Event): Option<Key>
    requires Enabled(p, w, e)
  {
    match e
    case Handle(n) => if Queue(w, n)[0].Data? then Some(Key(n, Queue(w, n)[0].data)) else None
    case Execute(_, n, output) => if output.Some? then Some(Key(n, output.value)) else None
    case _ => None
  }

  function StoresAfter(p: Params, w: World, e: Event): map<Node, set<DataId>>
    requires Enabled(p, w, e)
  {
    match Kept(p, w, e)
    case Some(k) => w.stores[k.node := Stored(w, k.node) + {k.data}]
    case None => w.stores
  }

  function ExecutingAfter(p: Params, w: World, e: Event): set<(nat, Node)>
    requires Enabled(p, w, e)
  {
    if e.Handle? && Queue(w, e.node)[0].Assignment? then w.executing + {(Queue(w, e.node)[0].thread, e.node)}
    else w.executing
  }

  function SendsAfter(p: Params, w: World, e: Event): map<Key, nat>
    requires Enabled(p, w, e)
  {
    if e.SendWhole? then w.sends[KeyOf(w.threads[e.t]) := Get(w.sends, KeyOf(w.threads[e.t])) + 1] else w.sends
  }

  function ForgetsAfter(p: Params, w: World, e: Event): map<Key, nat>
    requires Enabled(p, w, e)
  {
    var gone := Gone(p, w, e);
    map k | k in w.forgets.Keys + gone :: Get(w.forgets, k) + if k in gone then 1 else 0
  }

  function Step(p: Params, w: World, e: Event): World
    requires Enabled(p, w, e)
  {
    World(
      ThreadsAfter(p, w, e),
      LocksAfter(p, w, e),
      w.catalog - Gone(p, w, e) + Learned(p, w, e),
      InFlightAfter(p, w, e),
      LibraryAfter(p, w, e),
      QueuedAfter(p, w, e),
      StoresAfter(p, w, e),
      ExecutingAfter(p, w, e),
      if e.Execute? then w.results + {(e.thread, e.node, e.output)} else w.results,
      SendsAfter(p, w, e),
      ForgetsAfter(p, w, e))
  }

  /** `after` is reached from `w` by `events`, each possible when it happened. */
  predicate Reaches(p: Params, w: World, events: seq<Event>, after: World)
    decreases |events|
  {
    if events == [] then after == w
    else Enabled(p, w, events[0]) && Reaches(p, Step(p, w, events[0]), events[1..], after)
  }

  /** Every thread keeps its place within its own inputs, and has a node when it needs one. */
  predicate Placed(th: Thread) {
    match th.at
    case Choosing => true
    case Next(i) => Busy(th) && i <= |th.inputs|
    case Moving(i, _, _) => Busy(th) && i < |th.inputs|
    case Done => true
    case _ => Busy(th)
  }

  predicate AllPlaced(w: World) {
    forall t | 0 <= t < |w.threads| :: Placed(w.threads[t])
  }

  lemma {:induction false} ActPlaced(p: Params, w: World, e: Event)
    requires Enabled(p, w, e) && Acts(e) && Placed(w.threads[e.t])
    ensures Placed(ThreadAfter(p, w, e))
  {}

  lemma {:induction false} StepPlaced(p: Params, w: World, e: Event)
    requires Enabled(p, w, e) && AllPlaced(w)
    ensures AllPlaced(Step(p, w, e))
  {
    hide ThreadAfter;
    if Acts(e) { ActPlaced(p, w, e); }
  }

  // ---- Counting threads ----

  function Count(ts: seq<Thread>, p: Thread -> bool): nat {
    if ts == [] then 0 else Count(ts[..|ts| - 1], p) + if p(ts[|ts| - 1]) then 1 else 0
  }

  lemma {:induction false} CountUpdate(ts: seq<Thread>, t: nat, th: Thread, p: Thread -> bool)
    requires t < |ts|
    ensures Count(ts[t := th], p) == Count(ts, p) - (if p(ts[t]) then 1 else 0) + if p(th) then 1 else 0
  {
    var last := |ts| - 1;
    if t == last {
      assert ts[t := th][..last] == ts[..last];
    } else {
      assert ts[t := th][..last] == ts[..last][t := th];
      CountUpdate(ts[..last], t, th, p);
    }
  }

  lemma {:induction false} CountAppend(ts: seq<Thread>, th: Thread, p: Thread -> bool)
    ensures Count(ts + [th], p) == Count(ts, p) + if p(th) then 1 else 0
  {
    assert (ts + [th])[..|ts|] == ts;
  }

  lemma {:induction false} CountZero(ts: seq<Thread>, p: Thread -> bool)
    ensures Count(ts, p) == 0 <==> forall t | 0 <= t < |ts| :: !p(ts[t])
  {
    if ts != [] {
      var last := |ts| - 1;
      CountZero(ts[..last], p);
      assert forall t | 0 <= t < last :: ts[..last][t] == ts[t];
    }
  }

  /** With the thread `t` counted, the count is one exactly when there is no other. */
  lemma {:induction false} CountOne(ts: seq<Thread>, t: nat, p: Thread -> bool)
    requires t < |ts| && p(ts[t])
    ensures Count(ts, p) >= 1
    ensures Count(ts, p) == 1 <==> forall u | 0 <= u < |ts| && u != t :: !p(ts[u])
  {
    var last := |ts| - 1;
    var init := ts[..last];
    assert forall u | 0 <= u < last :: init[u] == ts[u];
    if t == last {
      CountZero(init, p);
    } else {
      CountOne(init, t, p);
    }
  }
}
