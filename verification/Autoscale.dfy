/** Deciding whether the mesh needs more nodes or fewer. Ratios are exact, and time is
    counted in whole units. */
module Autoscale {
  import opened Core

  datatype Target =
    | QueueLength(perNode: real)
    | CpuUtilization(fraction: real)
    | Latency(maxWait: real)

  datatype Policy = Policy(target: Target, minNodes: nat, maxNodes: nat, cooldown: nat, tolerance: real)

  datatype Signals = Signals(nodes: nat, queueDepth: nat, oldestWait: real, cpuUsage: real)

  datatype Why = CoolingDown | AtMaximum | WorkWaiting | AtMinimum | CloseEnough

  datatype Decision = ScaleUp(to: nat) | ScaleDown(to: nat) | NoChange(why: Why)

  function TargetNodes(d: Decision): Option<nat> {
    match d
    case ScaleUp(to) => Some(to)
    case ScaleDown(to) => Some(to)
    case NoChange(_) => None
  }

  // ---- Arithmetic ----

  function Max(a: real, b: real): (r: real)
    ensures r >= a && r >= b && (r == a || r == b)
  {
    if a < b then b else a
  }

  function AtLeastOne(n: nat): nat {
    if n < 1 then 1 else n
  }

  function Ceil(x: real): int {
    -(-x).Floor
  }

  /** A whole number of nodes: nothing below zero. */
  function Whole(x: int): nat {
    if x < 0 then 0 else x
  }

  function Clamp(p: Policy, n: nat): (r: nat)
    requires p.minNodes <= p.maxNodes
    ensures p.minNodes <= r <= p.maxNodes
    ensures p.minNodes <= n <= p.maxNodes ==> r == n
  {
    if n < p.minNodes then p.minNodes else if n > p.maxNodes then p.maxNodes else n
  }

  // ---- One decision ----

  predicate IsCooling(p: Policy, lastChange: Option<int>, now: int) {
    lastChange.Some? && (if now >= lastChange.value then now - lastChange.value else 0) < p.cooldown
  }

  /** How far the mesh is from its target: one is on it. */
  function Ratio(t: Target, s: Signals): real {
    match t
    case QueueLength(perNode) =>
      var want := Max(perNode, 0.01) * AtLeastOne(s.nodes) as real;
      assert want > 0.0;
      s.queueDepth as real / want
    case CpuUtilization(fraction) => s.cpuUsage / Max(fraction, 0.01)
    case Latency(maxWait) => s.oldestWait / Max(maxWait, 0.001)
  }

  /** The nodes that would put the mesh on target. */
  function Needed(nodes: nat, ratio: real): real {
    nodes as real * ratio
  }

  /** Work for `wanted` nodes, rounded up when growing and down when shrinking. */
  function Ceiling(p: Policy, wanted: real): nat
    requires p.minNodes <= p.maxNodes
  {
    Clamp(p, Whole(Ceil(wanted)))
  }

  function Flooring(p: Policy, wanted: real): nat
    requires p.minNodes <= p.maxNodes
  {
    Clamp(p, AtLeastOne(Whole(wanted.Floor)))
  }

  /** What to do at a given ratio, once the mesh has its minimum. */
  function Weigh(p: Policy, s: Signals, ratio: real): Decision
    requires p.minNodes <= p.maxNodes
  {
    if ratio > 1.0 + p.tolerance then
      var to := Ceiling(p, Needed(AtLeastOne(s.nodes), ratio));
      if to > s.nodes then ScaleUp(to) else NoChange(AtMaximum)
    else if ratio < 1.0 - p.tolerance then
      if s.queueDepth > 0 then NoChange(WorkWaiting)
      else
        var to := Flooring(p, Needed(s.nodes, Max(ratio, 0.0)));
        if to < s.nodes then ScaleDown(to) else NoChange(AtMinimum)
    else NoChange(CloseEnough)
  }

  /** `minNodes <= maxNodes` is what clamping demands. */
  function Evaluate(p: Policy, lastChange: Option<int>, s: Signals, now: int): Decision
    requires p.minNodes <= p.maxNodes
  {
    if IsCooling(p, lastChange, now) then NoChange(CoolingDown)
    else if s.nodes < p.minNodes then ScaleUp(p.minNodes)
    else Weigh(p, s, Ratio(p.target, s))
  }

  function LastAfter(lastChange: Option<int>, d: Decision, now: int): Option<int> {
    if TargetNodes(d).Some? then Some(now) else lastChange
  }

  class Autoscaler {
    const policy: Policy
    var lastChange: Option<int>

    constructor (policy: Policy)
      ensures this.policy == policy && lastChange == None
    {
      this.policy := policy;
      lastChange := None;
    }

    method Decide(s: Signals, now: int) returns (d: Decision)
      requires policy.minNodes <= policy.maxNodes
      modifies this
      ensures d == Evaluate(policy, old(lastChange), s, now)
      ensures lastChange == LastAfter(old(lastChange), d, now)
      ensures TargetNodes(d).Some? ==> !IsCooling(policy, old(lastChange), now)
      ensures TargetNodes(d).Some? ==>
                forall later, t | now <= later < now + policy.cooldown ::
                  Evaluate(policy, lastChange, t, later) == NoChange(CoolingDown)
    {
      d := Evaluate(policy, lastChange, s, now);
      if TargetNodes(d).Some? { lastChange := Some(now); }
    }
  }

  // ---- Any run of readings ----

  datatype Reading = Reading(signals: Signals, now: int)

  predicate Timed(rs: seq<Reading>) {
    forall i, j | 0 <= i < j < |rs| :: rs[i].now <= rs[j].now
  }

  function Decisions(p: Policy, last: Option<int>, rs: seq<Reading>): (ds: seq<Decision>)
    requires p.minNodes <= p.maxNodes
    ensures |ds| == |rs|
    decreases |rs|
  {
    if rs == [] then []
    else
      var d := Evaluate(p, last, rs[0].signals, rs[0].now);
      [d] + Decisions(p, LastAfter(last, d, rs[0].now), rs[1..])
  }

  /** Recommendations keep their distance from the last one. */
  lemma {:induction false} AfterLast(p: Policy, last: int, rs: seq<Reading>, j: nat)
    requires p.minNodes <= p.maxNodes && Timed(rs) && j < |rs| && last <= rs[0].now
    requires TargetNodes(Decisions(p, Some(last), rs)[j]).Some?
    ensures rs[j].now - last >= p.cooldown
    decreases |rs|
  {
    var d := Evaluate(p, Some(last), rs[0].signals, rs[0].now);
    if j > 0 {
      assert rs[0].now <= rs[1].now;
      assert forall i | 0 <= i < |rs| - 1 :: rs[1..][i] == rs[i + 1];
      if TargetNodes(d).Some? {
        AfterLast(p, rs[0].now, rs[1..], j - 1);
      } else {
        AfterLast(p, last, rs[1..], j - 1);
      }
    }
  }

  /** In any run, two recommendations are at least the cooldown apart. */
  lemma {:induction false} CooldownKept(p: Policy, last: Option<int>, rs: seq<Reading>, i: nat, j: nat)
    requires p.minNodes <= p.maxNodes && Timed(rs) && i < j < |rs|
    requires TargetNodes(Decisions(p, last, rs)[i]).Some? && TargetNodes(Decisions(p, last, rs)[j]).Some?
    ensures rs[j].now - rs[i].now >= p.cooldown
    decreases |rs|
  {
    var d := Evaluate(p, last, rs[0].signals, rs[0].now);
    assert forall k | 0 <= k < |rs| - 1 :: rs[1..][k] == rs[k + 1];
    if i == 0 {
      assert rs[0].now <= rs[1].now;
      AfterLast(p, rs[0].now, rs[1..], j - 1);
    } else {
      CooldownKept(p, LastAfter(last, d, rs[0].now), rs[1..], i - 1, j - 1);
    }
  }

  /** In any run, a recommendation is inside the limits and really a change, and the mesh
      never shrinks while work waits. */
  lemma {:induction false} RecommendationsSane(p: Policy, last: Option<int>, rs: seq<Reading>, i: nat)
    requires p.minNodes <= p.maxNodes && i < |rs|
    ensures var d := Decisions(p, last, rs)[i];
            TargetNodes(d).Some? ==> p.minNodes <= d.to <= p.maxNodes
    ensures var d, s := Decisions(p, last, rs)[i], rs[i].signals;
            (d.ScaleUp? ==> s.nodes < d.to) && (d.ScaleDown? ==> d.to < s.nodes && s.queueDepth == 0)
    decreases |rs|
  {
    if i > 0 {
      var d := Evaluate(p, last, rs[0].signals, rs[0].now);
      RecommendationsSane(p, LastAfter(last, d, rs[0].now), rs[1..], i - 1);
    }
  }
}
