/** Whether following the recommendations comes to rest. */
module AutoscaleSettles {
  import opened Core
  import opened Autoscale

  /** The load stays as it is; what a mesh of `n` nodes reads of it. */
  type Load = nat -> Signals

  /** The size the mesh is told to have, when it is not cooling down. */
  function Follow(p: Policy, load: Load, n: nat): nat
    requires p.minNodes <= p.maxNodes
  {
    match TargetNodes(Evaluate(p, None, load(n), 0))
    case Some(to) => to
    case None => n
  }

  predicate Settled(p: Policy, load: Load, n: nat)
    requires p.minNodes <= p.maxNodes
  {
    Follow(p, load, n) == n
  }

  function Iterate(p: Policy, load: Load, n: nat, k: nat): nat
    requires p.minNodes <= p.maxNodes
    decreases k
  {
    if k == 0 then n else Iterate(p, load, Follow(p, load, n), k - 1)
  }

  /** Following the recommendations from `n` comes to rest. */
  ghost predicate Rests(p: Policy, load: Load, n: nat)
    requires p.minNodes <= p.maxNodes
  {
    exists k: nat :: Settled(p, load, Iterate(p, load, n, k))
  }

  lemma {:induction false} IterateSettled(p: Policy, load: Load, n: nat, k: nat)
    requires p.minNodes <= p.maxNodes && Settled(p, load, n)
    ensures Iterate(p, load, n, k) == n
    decreases k
  {
    if k > 0 { IterateSettled(p, load, n, k - 1); }
  }

  // ---- Cancelling ----

  lemma {:induction false} Cancel(a: real, b: real)
    requires b > 0.0
    ensures b * (a / b) == a
  {}

  /** Spreading `a` over `n` shares of `w` and putting the shares together again. */
  lemma {:induction false} Spread(a: real, w: real, n: real)
    requires w > 0.0 && n > 0.0
    ensures w * n > 0.0 && n * (a / (w * n)) == a / w
  {
    assert w * n > 0.0;
    var r := a / (w * n);
    Cancel(a, w * n);
    assert w * (n * r) == (w * n) * r == a;
    Cancel(a, w);
  }

  lemma {:induction false} CeilBounds(x: real)
    ensures x <= Ceil(x) as real < x + 1.0
    ensures x.Floor as real <= x < x.Floor as real + 1.0
    ensures x.Floor <= Ceil(x) <= x.Floor + 1
  {}

  // ---- A constant queue ----

  function Queued(depth: nat): Load {
    (n: nat) => Signals(n, depth, 0.0, 0.0)
  }

  /** The nodes a queue of `depth` calls for. */
  function Called(p: Policy, depth: nat): real
    requires p.target.QueueLength?
  {
    depth as real / Max(p.target.perNode, 0.01)
  }

  /** From the minimum up, the ratio times the nodes is what the queue calls for. */
  lemma {:induction false} QueueRatio(p: Policy, depth: nat, n: nat)
    requires p.target.QueueLength?
    ensures Needed(AtLeastOne(n), Ratio(p.target, Queued(depth)(n))) == Called(p, depth)
  {
    Spread(depth as real, Max(p.target.perNode, 0.01), AtLeastOne(n) as real);
  }

  /** The size the mesh grows to, and the size it shrinks to when there is nothing to do. */
  function Enough(p: Policy, depth: nat): nat
    requires p.target.QueueLength? && p.minNodes <= p.maxNodes
  {
    Ceiling(p, Called(p, depth))
  }

  lemma {:induction false} NoneNeeded(n: nat, r: real)
    requires r == 0.0
    ensures Needed(n, Max(r, 0.0)) == 0.0
  {}

  lemma {:induction false} QueueMoves(p: Policy, depth: nat, n: nat)
    requires p.target.QueueLength? && p.tolerance >= 0.0 && p.minNodes <= n && p.minNodes <= p.maxNodes
    ensures var next := Follow(p, Queued(depth), n);
            || next == n
            || (n < Enough(p, depth) && next == Enough(p, depth))
            || (depth == 0 && next == Clamp(p, 1))
  {
    hide Ceiling, Flooring, Called, Ratio, Weigh, Needed;
    var s := Queued(depth)(n);
    var r := Ratio(p.target, s);
    assert Evaluate(p, None, s, 0) == Weigh(p, s, r);
    QueueRatio(p, depth, n);
    if TargetNodes(Weigh(p, s, r)).Some? { WeighTargets(p, s, r); }
    assert Ceiling(p, Needed(AtLeastOne(s.nodes), r)) == Enough(p, depth);
    if depth == 0 {
      EmptyRatio(p, n);
      NothingFloors(p);
      NoneNeeded(n, r);
      assert Flooring(p, Needed(s.nodes, Max(r, 0.0))) == Clamp(p, 1);
    }
  }

  lemma {:induction false} WeighTargets(p: Policy, s: Signals, r: real)
    requires p.minNodes <= p.maxNodes && TargetNodes(Weigh(p, s, r)).Some?
    ensures var to := TargetNodes(Weigh(p, s, r)).value;
            || (to > s.nodes && to == Ceiling(p, Needed(AtLeastOne(s.nodes), r)))
            || (s.queueDepth == 0 && to == Flooring(p, Needed(s.nodes, Max(r, 0.0))))
  {
    hide Ceiling, Flooring, Needed;
  }

  lemma {:induction false} NothingFloors(p: Policy)
    requires p.minNodes <= p.maxNodes
    ensures Flooring(p, 0.0) == Clamp(p, 1)
  {}

  lemma {:induction false} EmptyRatio(p: Policy, n: nat)
    requires p.target.QueueLength?
    ensures Ratio(p.target, Queued(0)(n)) == 0.0
  {
    assert Max(p.target.perNode, 0.01) * AtLeastOne(n) as real > 0.0;
  }

  lemma {:induction false} EnoughIsSettled(p: Policy, depth: nat)
    requires p.target.QueueLength? && p.tolerance >= 0.0 && p.minNodes <= p.maxNodes && depth > 0
    ensures Settled(p, Queued(depth), Enough(p, depth))
  {
    var n := Enough(p, depth);
    QueueMoves(p, depth, n);
  }

  lemma {:induction false} IdleIsSettled(p: Policy)
    requires p.target.QueueLength? && p.tolerance >= 0.0 && p.minNodes <= p.maxNodes
    ensures Settled(p, Queued(0), Clamp(p, 1))
  {
    EmptyRatio(p, Clamp(p, 1));
  }

  /** With a constant queue, following queue-length recommendations from any size makes at
      most two changes, and then none for ever. */
  lemma {:induction false} QueueSettles(p: Policy, depth: nat, n: nat)
    requires p.target.QueueLength? && p.tolerance >= 0.0 && p.minNodes <= p.maxNodes
    ensures Settled(p, Queued(depth), Iterate(p, Queued(depth), n, 2))
    ensures forall k: nat :: Iterate(p, Queued(depth), Iterate(p, Queued(depth), n, 2), k) == Iterate(p, Queued(depth), n, 2)
  {
    var load := Queued(depth);
    var a := Follow(p, load, n);
    var b := Follow(p, load, a);
    assert Iterate(p, load, n, 2) == b by { assert Iterate(p, load, a, 1) == b; }
    if n < p.minNodes { assert a == p.minNodes; } else { QueueMoves(p, depth, n); }
    if p.minNodes <= a {
      QueueMoves(p, depth, a);
    }
    if depth > 0 { EnoughIsSettled(p, depth); } else { IdleIsSettled(p); EnoughNone(p); }
    forall k: nat ensures Iterate(p, load, b, k) == b { IterateSettled(p, load, b, k); }
  }

  /** An empty queue calls for nothing. */
  lemma {:induction false} EnoughNone(p: Policy)
    requires p.target.QueueLength? && p.minNodes <= p.maxNodes
    ensures Enough(p, 0) == p.minNodes
  {
    assert Called(p, 0) == 0.0;
  }

  /** How often a mesh that follows the recommendations at once is told to change, when
      asked at `times`; here the cooldown counts. */
  function Changes(p: Policy, load: Load, last: Option<int>, times: seq<int>, n: nat): nat
    requires p.minNodes <= p.maxNodes
    decreases |times|
  {
    if times == [] then 0
    else
      match TargetNodes(Evaluate(p, last, load(n), times[0]))
      case Some(to) => 1 + Changes(p, load, Some(times[0]), times[1..], to)
      case None => Changes(p, load, last, times[1..], n)
  }

  /** At most this many changes from `n`. */
  function Ahead(p: Policy, load: Load, n: nat): nat
    requires p.minNodes <= p.maxNodes
  {
    if Settled(p, load, n) then 0 else if Settled(p, load, Follow(p, load, n)) then 1 else 2
  }

  lemma {:induction false} TwoIsSettled(p: Policy, depth: nat, n: nat)
    requires p.target.QueueLength? && p.tolerance >= 0.0 && p.minNodes <= p.maxNodes
    ensures Settled(p, Queued(depth), Follow(p, Queued(depth), Follow(p, Queued(depth), n)))
  {
    QueueSettles(p, depth, n);
    var load, a := Queued(depth), Follow(p, Queued(depth), n);
    assert Iterate(p, load, n, 2) == Iterate(p, load, a, 1) == Iterate(p, load, Follow(p, load, a), 0);
  }

  /** In any run, however often it is asked and however long the cooldown, a mesh under a
      constant queue is told to change at most twice. */
  lemma {:induction false} TwoChanges(p: Policy, depth: nat, last: Option<int>, times: seq<int>, n: nat)
    requires p.target.QueueLength? && p.tolerance >= 0.0 && p.minNodes <= p.maxNodes
    ensures Changes(p, Queued(depth), last, times, n) <= Ahead(p, Queued(depth), n) <= 2
    decreases |times|
  {
    if times != [] {
      var load := Queued(depth);
      match TargetNodes(Evaluate(p, last, load(n), times[0]))
      case Some(to) =>
        assert to == Follow(p, load, n) != n;
        TwoIsSettled(p, depth, n);
        TwoChanges(p, depth, Some(times[0]), times[1..], to);
      case None =>
        TwoChanges(p, depth, last, times[1..], n);
    }
  }

  // ---- A constant amount of work, shared out ----

  /** A target for what the nodes share: busy processors, or a wait that more nodes shorten. */
  predicate IsShared(t: Target) {
    t.CpuUtilization? || t.Latency?
  }

  /** What one node exactly on target reads. */
  function Aim(t: Target): (r: real)
    requires IsShared(t)
    ensures r > 0.0
  {
    match t
    case CpuUtilization(fraction) => Max(fraction, 0.01)
    case Latency(maxWait) => Max(maxWait, 0.001)
  }

  /** Work that keeps `x` nodes exactly on target, spread evenly, while `depth` tasks wait; no
      nodes read nothing. */
  function Spreads(p: Policy, x: real, depth: nat): Load
    requires IsShared(p.target)
  {
    (n: nat) =>
      var share := if n == 0 then 0.0 else x * Aim(p.target) / n as real;
      if p.target.Latency? then Signals(n, depth, share, 0.0) else Signals(n, depth, 0.0, share)
  }

  predicate TooFew(p: Policy, x: real, n: nat) {
    x > (1.0 + p.tolerance) * n as real
  }

  predicate TooMany(p: Policy, x: real, n: nat) {
    x < (1.0 - p.tolerance) * n as real
  }

  /** The rounded-down size is too small for the dead band, and the rounded-up size too large,
      with nothing waiting to keep the mesh from shrinking. */
  predicate Swings(p: Policy, x: real, depth: nat)
    requires p.minNodes <= p.maxNodes
  {
    depth == 0 && TooFew(p, x, Flooring(p, x)) && TooMany(p, x, Ceiling(p, x))
  }

  lemma {:induction false} SharedRatio(p: Policy, x: real, depth: nat, n: nat)
    requires IsShared(p.target) && n > 0
    ensures n as real * Ratio(p.target, Spreads(p, x, depth)(n)) == x
  {
    var w := Aim(p.target);
    var u := x * w / n as real;
    assert Ratio(p.target, Spreads(p, x, depth)(n)) == u / w;
    Cancel(x * w, n as real);
    Cancel(u, w);
    var r := u / w;
    assert w * (n as real * r) == n as real * (w * r) == x * w;
    CancelLeft(w, n as real * r, x);
  }

  lemma {:induction false} CancelLeft(w: real, a: real, b: real)
    requires w > 0.0 && w * a == b * w
    ensures a == b
  {
    assert w * (a - b) == 0.0;
  }

  lemma {:induction false} Compare(m: real, r: real, x: real, s: real)
    requires m > 0.0 && m * r == x
    ensures r > s <==> x > s * m
    ensures r < s <==> x < s * m
  {
    if r > s { assert m * (r - s) > 0.0; }
    if r < s { assert m * (s - r) > 0.0; }
  }

  lemma {:induction false} WeighAt(p: Policy, s: Signals, r: real, x: real)
    requires p.minNodes <= p.maxNodes && s.nodes > 0 && s.nodes as real * r == x && r >= 0.0
    ensures r > 1.0 + p.tolerance ==>
              Weigh(p, s, r) == if Ceiling(p, x) > s.nodes then ScaleUp(Ceiling(p, x)) else NoChange(AtMaximum)
    ensures r <= 1.0 + p.tolerance && r < 1.0 - p.tolerance && s.queueDepth > 0 ==>
              Weigh(p, s, r) == NoChange(WorkWaiting)
    ensures r <= 1.0 + p.tolerance && r < 1.0 - p.tolerance && s.queueDepth == 0 ==>
              Weigh(p, s, r) == if Flooring(p, x) < s.nodes then ScaleDown(Flooring(p, x)) else NoChange(AtMinimum)
    ensures 1.0 - p.tolerance <= r <= 1.0 + p.tolerance ==> Weigh(p, s, r) == NoChange(CloseEnough)
  {
    hide Ceiling, Flooring;
    assert Needed(AtLeastOne(s.nodes), r) == x && Needed(s.nodes, Max(r, 0.0)) == x;
  }

  /** What is recommended at `n` nodes. */
  lemma {:induction false} SharedMoves(p: Policy, x: real, depth: nat, n: nat)
    requires IsShared(p.target) && p.minNodes <= p.maxNodes && p.minNodes <= n && n > 0 && x >= 0.0
    requires p.tolerance >= 0.0
    ensures TooFew(p, x, n) && Ceiling(p, x) > n ==> Follow(p, Spreads(p, x, depth), n) == Ceiling(p, x)
    ensures depth == 0 && TooMany(p, x, n) && Flooring(p, x) < n ==> Follow(p, Spreads(p, x, depth), n) == Flooring(p, x)
    ensures !(TooFew(p, x, n) && Ceiling(p, x) > n) && !(depth == 0 && TooMany(p, x, n) && Flooring(p, x) < n) ==>
              Follow(p, Spreads(p, x, depth), n) == n
    ensures !(TooFew(p, x, n) && TooMany(p, x, n))
  {
    hide Ratio, Ceiling, Flooring, Weigh;
    var s := Spreads(p, x, depth)(n);
    var r, m := Ratio(p.target, s), n as real;
    SharedRatio(p, x, depth, n);
    Compare(m, r, x, 1.0 + p.tolerance);
    Compare(m, r, x, 1.0 - p.tolerance);
    Compare(m, r, x, 0.0);
    WeighAt(p, s, r, x);
  }

  /** No nodes read no work. */
  lemma {:induction false} NoneStays(p: Policy, x: real, depth: nat)
    requires IsShared(p.target) && p.minNodes == 0 && p.tolerance >= 0.0
    ensures Settled(p, Spreads(p, x, depth), 0)
  {
    var s := Spreads(p, x, depth)(0);
    assert Ratio(p.target, s) == 0.0;
  }

  lemma {:induction false} Rounded(p: Policy, x: real)
    requires p.minNodes <= p.maxNodes && x >= 0.0
    ensures p.minNodes <= Flooring(p, x) && p.minNodes <= Ceiling(p, x)
    ensures x > 0.0 ==> Flooring(p, x) <= Ceiling(p, x)
    ensures Flooring(p, x) == 0 ==> p.maxNodes == 0
  {
    CeilBounds(x);
  }

  /** From every size the next is this one, the minimum, or one of the two roundings. */
  lemma {:induction false} SharedNext(p: Policy, x: real, depth: nat, n: nat)
    requires IsShared(p.target) && p.minNodes <= p.maxNodes && x >= 0.0 && p.tolerance >= 0.0
    ensures Follow(p, Spreads(p, x, depth), n) in {n, p.minNodes, Ceiling(p, x), Flooring(p, x)}
    ensures p.minNodes <= n ==> Follow(p, Spreads(p, x, depth), n) in {n, Ceiling(p, x), Flooring(p, x)}
    ensures n < p.minNodes ==> Follow(p, Spreads(p, x, depth), n) == p.minNodes
  {
    if p.minNodes <= n {
      if n == 0 { NoneStays(p, x, depth); } else { SharedMoves(p, x, depth, n); }
    }
  }

  /** The rounded-up size is left only for the rounded-down one, and the other way round;
      each exactly when the dead band does not cover it. */
  lemma {:induction false} SharedRoundings(p: Policy, x: real, depth: nat)
    requires IsShared(p.target) && p.minNodes <= p.maxNodes && x >= 0.0 && p.tolerance >= 0.0
    ensures var load, c, f := Spreads(p, x, depth), Ceiling(p, x), Flooring(p, x);
            (Settled(p, load, c) || Follow(p, load, c) == f) && (Settled(p, load, f) || Follow(p, load, f) == c)
    ensures var load := Spreads(p, x, depth);
            !Swings(p, x, depth) ==> Settled(p, load, Ceiling(p, x)) || Settled(p, load, Flooring(p, x))
    ensures Swings(p, x, depth) ==> Follow(p, Spreads(p, x, depth), Ceiling(p, x)) == Flooring(p, x)
    ensures Swings(p, x, depth) ==> Follow(p, Spreads(p, x, depth), Flooring(p, x)) == Ceiling(p, x)
    ensures Swings(p, x, depth) ==> Flooring(p, x) < Ceiling(p, x)
  {
    var c, f := Ceiling(p, x), Flooring(p, x);
    Rounded(p, x);
    hide Ceiling, Flooring, Follow, Spreads, TooFew, TooMany;
    if c == 0 { NoneStays(p, x, depth); } else { SharedMoves(p, x, depth, c); }
    if f == 0 { NoneStays(p, x, depth); } else { SharedMoves(p, x, depth, f); }
    if Swings(p, x, depth) { SwingApart(p, x, c, f); }
  }

  lemma {:induction false} SwingApart(p: Policy, x: real, c: nat, f: nat)
    requires p.tolerance >= 0.0 && TooFew(p, x, f) && TooMany(p, x, c)
    ensures f < c
  {
    assert p.tolerance * f as real >= 0.0 && p.tolerance * c as real >= 0.0;
    assert (1.0 + p.tolerance) * f as real == f as real + p.tolerance * f as real;
    assert (1.0 - p.tolerance) * c as real == c as real - p.tolerance * c as real;
  }

  /** Unless the load swings, three changes are enough from any size. */
  lemma {:induction false} SharedSettles(p: Policy, x: real, depth: nat, n: nat)
    requires IsShared(p.target) && p.minNodes <= p.maxNodes && x >= 0.0 && p.tolerance >= 0.0 && !Swings(p, x, depth)
    ensures Settled(p, Spreads(p, x, depth), Iterate(p, Spreads(p, x, depth), n, 3))
  {
    var load := Spreads(p, x, depth);
    var a := Follow(p, load, n);
    var b := Follow(p, load, a);
    var c := Follow(p, load, b);
    assert Iterate(p, load, n, 3) == c by { assert Iterate(p, load, b, 1) == c && Iterate(p, load, a, 2) == c; }
    Rounded(p, x);
    SharedNext(p, x, depth, n);
    SharedNext(p, x, depth, a);
    SharedNext(p, x, depth, b);
    SharedRoundings(p, x, depth);
    hide Ceiling, Flooring, Follow, Spreads, Swings;
  }

  lemma {:induction false} SwingsForEver(p: Policy, x: real, depth: nat, k: nat)
    requires IsShared(p.target) && p.minNodes <= p.maxNodes && x >= 0.0 && p.tolerance >= 0.0 && Swings(p, x, depth)
    ensures Iterate(p, Spreads(p, x, depth), Flooring(p, x), 2 * k) == Flooring(p, x)
    ensures Iterate(p, Spreads(p, x, depth), Flooring(p, x), 2 * k + 1) == Ceiling(p, x)
    decreases k
  {
    SharedRoundings(p, x, depth);
    var load, f, c := Spreads(p, x, depth), Flooring(p, x), Ceiling(p, x);
    if k > 0 {
      SwingsForEver(p, x, depth, k - 1);
      assert Iterate(p, load, f, 2 * k) == Iterate(p, load, c, 2 * k - 1) == Iterate(p, load, f, 2 * k - 2);
      assert Iterate(p, load, f, 2 * k + 1) == Iterate(p, load, c, 2 * k) == Iterate(p, load, f, 2 * k - 1);
    } else {
      assert Iterate(p, load, f, 1) == Iterate(p, load, c, 0);
    }
  }

  /** With constant work, shared by the processors or felt as a wait, following the
      recommendations comes to rest from every size exactly when the load does not swing;
      otherwise there is a size from which it never does. */
  lemma {:induction false} SharedSettlesExactly(p: Policy, x: real, depth: nat)
    requires IsShared(p.target) && p.minNodes <= p.maxNodes && x >= 0.0 && p.tolerance >= 0.0
    ensures !Swings(p, x, depth) <==> forall n: nat :: Rests(p, Spreads(p, x, depth), n)
  {
    var load := Spreads(p, x, depth);
    if !Swings(p, x, depth) {
      forall n: nat ensures Rests(p, load, n) {
        SharedSettles(p, x, depth, n);
      }
    } else {
      var f := Flooring(p, x);
      SharedRoundings(p, x, depth);
      forall k: nat ensures !Settled(p, load, Iterate(p, load, f, k)) {
        SwingsForEver(p, x, depth, k / 2);
        assert k == 2 * (k / 2) || k == 2 * (k / 2) + 1;
      }
      assert !Rests(p, load, f);
    }
  }

  /** A dead band of one node in the number needed is wide enough. */
  lemma {:induction false} WideBandSettles(p: Policy, x: real, depth: nat)
    requires p.minNodes <= p.maxNodes && x >= 0.0 && p.tolerance >= 0.0 && p.tolerance * Ceil(x) as real >= 1.0
    ensures !Swings(p, x, depth)
  {
    CeilBounds(x);
    var c := Ceiling(p, x);
    if c == Ceil(x) {
      assert (1.0 - p.tolerance) * c as real == c as real - p.tolerance * c as real;
    } else if Swings(p, x, depth) {
      SwingApart(p, x, c, Flooring(p, x));
    }
  }

  /** And a narrower one may not be: a quarter, for work of 1.3 nodes, goes to and fro
      between one node and two. */
  lemma {:induction false} NarrowBandSwings(fraction: real, k: nat)
    ensures var p := Policy(CpuUtilization(fraction), 1, 16, 120, 0.25);
            Iterate(p, Spreads(p, 1.3, 0), 1, 2 * k) == 1 && Iterate(p, Spreads(p, 1.3, 0), 1, 2 * k + 1) == 2
  {
    var p := Policy(CpuUtilization(fraction), 1, 16, 120, 0.25);
    assert Ceiling(p, 1.3) == 2 && Flooring(p, 1.3) == 1;
    SwingsForEver(p, 1.3, 0, k);
  }
}
