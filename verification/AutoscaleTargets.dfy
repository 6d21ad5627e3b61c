/** Each decision told from what was read, target by target: what the reading is compared
    with, when the mesh grows or shrinks, and to what size. */
module AutoscaleTargets {
  import opened Core
  import opened Autoscale
  import opened AutoscaleSettles

  // ---- The two roundings ----

  /** The fewest nodes inside the limits that are enough for `wanted`, or as many as there
      may be. */
  predicate Fewest(p: Policy, wanted: real, n: nat) {
    && p.minNodes <= n <= p.maxNodes
    && (n as real >= wanted || n == p.maxNodes)
    && (n == p.minNodes || (n - 1) as real < wanted)
  }

  /** The most nodes inside the limits that `wanted` keeps busy, but one at least, or as few
      as there must be. */
  predicate Busiest(p: Policy, wanted: real, n: nat) {
    && p.minNodes <= n <= p.maxNodes && (n >= 1 || p.maxNodes == 0)
    && (n as real <= wanted || n == p.minNodes || n == 1)
    && (n == p.maxNodes || (n + 1) as real > wanted)
  }

  lemma {:induction false} OnlyFewest(p: Policy, wanted: real, a: nat, b: nat)
    requires Fewest(p, wanted, a) && Fewest(p, wanted, b)
    ensures a == b
  {}

  lemma {:induction false} OnlyBusiest(p: Policy, wanted: real, a: nat, b: nat)
    requires Busiest(p, wanted, a) && Busiest(p, wanted, b)
    ensures a == b
  {}

  /** There is one of each. */
  lemma {:induction false} Roundings(p: Policy, wanted: real)
    requires p.minNodes <= p.maxNodes
    ensures Fewest(p, wanted, Ceiling(p, wanted)) && Busiest(p, wanted, Flooring(p, wanted))
  {
    CeilBounds(wanted);
  }

  // ---- What is compared with what ----

  /** What the target has the mesh read. */
  function Measured(t: Target, s: Signals): real {
    match t
    case QueueLength(_) => s.queueDepth as real
    case CpuUtilization(_) => s.cpuUsage
    case Latency(_) => s.oldestWait
  }

  /** What it should read, and for a queue the more so the more nodes there are. No target is
      taken to be smaller than a little. */
  function Goal(t: Target, nodes: nat): (r: real)
    ensures r > 0.0
  {
    match t
    case QueueLength(perNode) =>
      var each := if perNode > 0.01 then perNode else 0.01;
      var n := if nodes == 0 then 1.0 else nodes as real;
      assert each * n > 0.0;
      each * n
    case CpuUtilization(fraction) => if fraction > 0.01 then fraction else 0.01
    case Latency(maxWait) => if maxWait > 0.001 then maxWait else 0.001
  }

  lemma {:induction false} RatioOf(t: Target, s: Signals)
    ensures Ratio(t, s) == Measured(t, s) / Goal(t, s.nodes)
  {
    match t
    case QueueLength(perNode) =>
      var n := if s.nodes == 0 then 1.0 else s.nodes as real;
      assert AtLeastOne(s.nodes) as real == n;
      assert Max(perNode, 0.01) * AtLeastOne(s.nodes) as real == Goal(t, s.nodes);
    case CpuUtilization(_) =>
    case Latency(_) =>
  }

  /** The nodes that would read exactly the goal. */
  function Wanted(t: Target, s: Signals): real {
    (if s.nodes == 0 then 1.0 else s.nodes as real) * (Measured(t, s) / Goal(t, s.nodes))
  }

  predicate Above(p: Policy, s: Signals) {
    Measured(p.target, s) > (1.0 + p.tolerance) * Goal(p.target, s.nodes)
  }

  predicate Under(p: Policy, s: Signals) {
    !Above(p, s) && Measured(p.target, s) < (1.0 - p.tolerance) * Goal(p.target, s.nodes)
  }

  lemma {:induction false} Bands(p: Policy, s: Signals)
    ensures Ratio(p.target, s) > 1.0 + p.tolerance <==> Above(p, s)
    ensures !Above(p, s) ==> (Ratio(p.target, s) < 1.0 - p.tolerance <==> Under(p, s))
  {
    var m, g := Measured(p.target, s), Goal(p.target, s.nodes);
    RatioOf(p.target, s);
    hide Ratio, Measured, Goal;
    Cancel(m, g);
    Compare(g, m / g, m, 1.0 + p.tolerance);
    Compare(g, m / g, m, 1.0 - p.tolerance);
  }

  /** The nodes needed are the nodes wanted. */
  lemma {:induction false} NeededIsWanted(p: Policy, s: Signals)
    ensures Needed(AtLeastOne(s.nodes), Ratio(p.target, s)) == Wanted(p.target, s)
    ensures s.nodes > 0 ==> Needed(s.nodes, Max(Ratio(p.target, s), 0.0)) == Max(Wanted(p.target, s), 0.0)
  {
    hide Ratio, Measured, Goal, Max;
    RatioOf(p.target, s);
    if s.nodes > 0 { NotBelowZero(s.nodes as real, Ratio(p.target, s)); }
  }

  lemma {:induction false} Sizes(p: Policy, s: Signals, up: nat, down: nat)
    requires p.minNodes <= p.maxNodes
    requires Fewest(p, Wanted(p.target, s), up) && Busiest(p, Max(Wanted(p.target, s), 0.0), down)
    ensures Ceiling(p, Needed(AtLeastOne(s.nodes), Ratio(p.target, s))) == up
    ensures s.nodes > 0 ==> Flooring(p, Needed(s.nodes, Max(Ratio(p.target, s), 0.0))) == down
  {
    hide Ceiling, Flooring, Fewest, Busiest, Ratio, Wanted, Needed, Max;
    var x := Wanted(p.target, s);
    NeededIsWanted(p, s);
    Roundings(p, x);
    Roundings(p, Max(x, 0.0));
    OnlyFewest(p, x, up, Ceiling(p, x));
    OnlyBusiest(p, Max(x, 0.0), down, Flooring(p, Max(x, 0.0)));
  }

  /** What is recommended to a mesh that has its minimum and is not settling: grow exactly when
      the reading is above the dead band and the fewest nodes that are enough are more than
      there are; shrink exactly when it is under the band, nothing waits, and the most nodes
      kept busy are fewer; and otherwise the reason for leaving things as they are. */
  lemma {:induction false} DecisionExactly(p: Policy, last: Option<int>, s: Signals, now: int, up: nat, down: nat)
    requires p.minNodes <= p.maxNodes && p.minNodes <= s.nodes && !IsCooling(p, last, now)
    requires Fewest(p, Wanted(p.target, s), up) && Busiest(p, Max(Wanted(p.target, s), 0.0), down)
    ensures Evaluate(p, last, s, now)
         == if Above(p, s) then if up > s.nodes then ScaleUp(up) else NoChange(AtMaximum)
            else if !Under(p, s) then NoChange(CloseEnough)
            else if s.queueDepth > 0 then NoChange(WorkWaiting)
            else if down < s.nodes then ScaleDown(down)
            else NoChange(AtMinimum)
  {
    hide Ceiling, Flooring, Fewest, Busiest, Ratio, Needed, Wanted, Above, Under;
    Bands(p, s);
    Sizes(p, s, up, down);
  }

  lemma {:induction false} NotBelowZero(n: real, r: real)
    requires n > 0.0
    ensures n * Max(r, 0.0) == Max(n * r, 0.0)
  {
    if r < 0.0 { assert n * r < 0.0; }
  }

  /** While the last change settles nothing is recommended; short of its minimum the mesh is
      told to have it, whatever else it reads. */
  lemma {:induction false} BeforeAnything(p: Policy, last: Option<int>, s: Signals, now: int)
    requires p.minNodes <= p.maxNodes
    ensures last.Some? && now - last.value < p.cooldown && (now >= last.value || p.cooldown > 0) ==>
              Evaluate(p, last, s, now) == NoChange(CoolingDown)
    ensures (last.None? || now - last.value >= p.cooldown || p.cooldown == 0) && s.nodes < p.minNodes ==>
              Evaluate(p, last, s, now) == ScaleUp(p.minNodes)
  {}

  // ---- Settling ----

  /** A change was recommended before reading `i`, and not as long ago as the cooldown. */
  predicate Settling(p: Policy, rs: seq<Reading>, ds: seq<Decision>, i: nat)
    requires i < |rs| && |ds| == |rs|
  {
    exists j | 0 <= j < i :: TargetNodes(ds[j]).Some? && rs[i].now - rs[j].now < p.cooldown
  }

  lemma {:induction false} SettlingFrom(p: Policy, last: Option<int>, rs: seq<Reading>, i: nat)
    requires p.minNodes <= p.maxNodes && Timed(rs) && i < |rs| && (last.Some? ==> last.value <= rs[0].now)
    ensures var ds := Decisions(p, last, rs);
            ds[i] == NoChange(CoolingDown)
            <==> (last.Some? && rs[i].now - last.value < p.cooldown) || Settling(p, rs, ds, i)
    decreases |rs|
  {
    var ds := Decisions(p, last, rs);
    var d := Evaluate(p, last, rs[0].signals, rs[0].now);
    if i == 0 {
      CoolsFirst(p, last, rs[0].signals, rs[0].now);
    } else {
      var rest, next := rs[1..], LastAfter(last, d, rs[0].now);
      var later := Decisions(p, next, rest);
      assert ds == [d] + later && Timed(rest) && rs[0].now <= rs[1].now <= rs[i].now;
      SettlingFrom(p, next, rest, i - 1);
      hide Evaluate, Decisions;
      assert Settling(p, rs, ds, i)
        <==> (TargetNodes(d).Some? && rs[i].now - rs[0].now < p.cooldown) || Settling(p, rest, later, i - 1) by {
        SettlingLater(p, rs, ds, i);
      }
      if TargetNodes(d).Some? && last.Some? { assert rs[i].now - last.value >= rs[i].now - rs[0].now; }
    }
  }

  lemma {:induction false} SettlingLater(p: Policy, rs: seq<Reading>, ds: seq<Decision>, i: nat)
    requires 0 < i < |rs| && |ds| == |rs|
    ensures Settling(p, rs, ds, i)
       <==> || (TargetNodes(ds[0]).Some? && rs[i].now - rs[0].now < p.cooldown)
            || Settling(p, rs[1..], ds[1..], i - 1)
  {
    var rest, later := rs[1..], ds[1..];
    if j :| 0 < j < i && TargetNodes(ds[j]).Some? && rs[i].now - rs[j].now < p.cooldown {
      assert later[j - 1] == ds[j] && rest[j - 1] == rs[j] && rest[i - 1] == rs[i];
    }
    if Settling(p, rest, later, i - 1) {
      var j :| 0 <= j < i - 1 && TargetNodes(later[j]).Some? && rest[i - 1].now - rest[j].now < p.cooldown;
      assert later[j] == ds[j + 1] && rest[j] == rs[j + 1];
    }
  }

  lemma {:induction false} CoolsFirst(p: Policy, last: Option<int>, s: Signals, now: int)
    requires p.minNodes <= p.maxNodes && (last.Some? ==> last.value <= now)
    ensures Evaluate(p, last, s, now) == NoChange(CoolingDown) <==> last.Some? && now - last.value < p.cooldown
  {
    hide Ratio, Ceiling, Flooring;
  }

  /** In any run of readings, nothing is recommended for the last change's sake exactly while a
      change recommended earlier is less than the cooldown ago; waiting does not start it anew. */
  lemma {:induction false} CooldownExactly(p: Policy, rs: seq<Reading>, i: nat)
    requires p.minNodes <= p.maxNodes && Timed(rs) && i < |rs|
    ensures Decisions(p, None, rs)[i] == NoChange(CoolingDown) <==> Settling(p, rs, Decisions(p, None, rs), i)
  {
    SettlingFrom(p, None, rs, i);
  }
}
