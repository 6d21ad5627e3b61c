/** Workflows: a list of steps, each naming the steps it waits for, and the plan
    in which every step follows everything it depends on. */
module Workflows {
  import opened Core

  datatype Step = Step(task: Task, dependsOn: seq<nat>)

  type Workflow = seq<Step>

  function Elems(s: seq<nat>): set<nat> {
    set x | x in s
  }

  function Deps(wf: Workflow, x: nat): set<nat>
    requires x < |wf|
  {
    Elems(wf[x].dependsOn)
  }

  predicate Distinct(s: seq<nat>) {
    forall i, j | 0 <= i < j < |s| :: s[i] != s[j]
  }

  /** No step names the same dependency twice. Nothing in the runtime checks this. */
  predicate NoDuplicates(wf: Workflow) {
    forall x | 0 <= x < |wf| :: Distinct(wf[x].dependsOn)
  }

  predicate Within(s: seq<nat>, bound: nat) {
    forall i | 0 <= i < |s| :: s[i] < bound
  }

  /** The steps that wait on `step`, lowest index first. */
  function DependentsOf(wf: Workflow, step: nat): (r: seq<nat>)
    ensures Within(r, |wf|)
  {
    var r := DependentsBelow(wf, step, |wf|);
    assert forall i | 0 <= i < |r| :: r[i] in r;
    r
  }

  function DependentsBelow(wf: Workflow, step: nat, bound: nat): (r: seq<nat>)
    requires bound <= |wf|
    ensures forall x :: x in r <==> 0 <= x < bound && step in wf[x].dependsOn
    ensures Distinct(r)
  {
    if bound == 0 then []
    else
      DependentsBelow(wf, step, bound - 1)
      + (if step in wf[bound - 1].dependsOn then [bound - 1] else [])
  }

  /** `order` lists every step once, each after everything it depends on. */
  predicate Topological(wf: Workflow, order: seq<nat>) {
    && |order| == |wf|
    && Distinct(order)
    && (forall i | 0 <= i < |order| :: order[i] < |wf|)
    && (forall i | 0 <= i < |order| :: Deps(wf, order[i]) <= Elems(order[..i]))
  }

  ghost predicate Acyclic(wf: Workflow) {
    exists order :: Topological(wf, order)
  }

  /** A dependency comes earlier in the order. */
  lemma {:induction false} DepBefore(wf: Workflow, order: seq<nat>, i: nat, d: nat) returns (j: nat)
    requires Topological(wf, order) && i < |order| && d in Deps(wf, order[i])
    ensures j < i && order[j] == d && d < |wf|
  {
    assert d in Elems(order[..i]) && d in order[..i];
    j :| 0 <= j < i && order[..i][j] == d;
  }

  /** Every step has a place in the order. */
  lemma {:induction false} PlaceOf(wf: Workflow, order: seq<nat>, x: nat) returns (i: nat)
    requires Topological(wf, order) && x < |wf|
    ensures i < |order| && order[i] == x
  {
    CoversAll(|wf|, order);
    assert x in Elems(order) && x in order;
    i :| 0 <= i < |order| && order[i] == x;
  }

  // ---- Counting what a step still waits for ----

  /** How many entries of `deps`, repeats included, are not in `done`. */
  function Unmet(deps: seq<nat>, done: set<nat>): nat {
    if deps == [] then 0
    else (if deps[0] in done then 0 else 1) + Unmet(deps[1..], done)
  }

  lemma {:induction false} UnmetZero(deps: seq<nat>, done: set<nat>)
    ensures Unmet(deps, done) == 0 <==> Elems(deps) <= done
  {
    if deps != [] {
      UnmetZero(deps[1..], done);
      assert deps == [deps[0]] + deps[1..];
      assert Elems(deps) == {deps[0]} + Elems(deps[1..]);
    }
  }

  lemma {:induction false} UnmetEmpty(deps: seq<nat>)
    ensures Unmet(deps, {}) == |deps|
  {
    if deps != [] { UnmetEmpty(deps[1..]); }
  }

  lemma {:induction false} UnmetAdd(deps: seq<nat>, done: set<nat>, d: nat)
    requires d !in done
    ensures Unmet(deps, done + {d}) == Unmet(deps, done) - multiset(deps)[d]
  {
    if deps != [] {
      UnmetAdd(deps[1..], done, d);
      assert deps == [deps[0]] + deps[1..];
    }
  }

  // ---- The plan ----

  /** A step whose dependencies are all in `done` and which is not itself in it. */
  predicate Ready(wf: Workflow, done: set<nat>, x: nat) {
    x < |wf| && x !in done && Deps(wf, x) <= done
  }

  /** Every entry is the lowest-numbered step that was ready when it was chosen. */
  predicate LeastFirst(wf: Workflow, order: seq<nat>) {
    forall i | 0 <= i < |order| ::
      && Ready(wf, Elems(order[..i]), order[i])
      && (forall x: nat | x < order[i] :: !Ready(wf, Elems(order[..i]), x))
  }

  predicate Sorted(s: seq<nat>) {
    forall i, j | 0 <= i < j < |s| :: s[i] < s[j]
  }

  /** `index`, as many times as `deps` mentions `d`. */
  function Mentions(deps: seq<nat>, d: nat, index: nat): (r: seq<nat>) {
    if deps == [] then []
    else
      var last := |deps| - 1;
      Mentions(deps[..last], d, index) + (if deps[last] == d then [index] else [])
  }

  lemma {:induction false} MentionsCount(deps: seq<nat>, d: nat, index: nat)
    ensures var r := Mentions(deps, d, index);
            multiset(r)[index] == multiset(deps)[d] && forall x | x in r :: x == index
  {
    if deps != [] {
      var last := |deps| - 1;
      assert deps == deps[..last] + [deps[last]];
      MentionsCount(deps[..last], d, index);
    }
  }

  /** Adds `index` to the list of everything `deps` mentions, once per mention. */
  method AddMentions(lists: seq<seq<nat>>, deps: seq<nat>, index: nat) returns (r: seq<seq<nat>>)
    ensures |r| == |lists|
    ensures forall d | 0 <= d < |lists| :: r[d] == lists[d] + Mentions(deps, d, index)
  {
    r := lists;
    for k := 0 to |deps|
      invariant |r| == |lists|
      invariant forall d | 0 <= d < |lists| :: r[d] == lists[d] + Mentions(deps[..k], d, index)
    {
      var before := r;
      if deps[k] < |r| {
        r := r[deps[k] := r[deps[k]] + [index]];
      }
      forall d | 0 <= d < |lists| ensures r[d] == lists[d] + Mentions(deps[..k + 1], d, index) {
        MentionsGrow(deps, k, d, index);
        assert before[d] == lists[d] + Mentions(deps[..k], d, index);
      }
    }
    assert deps[..|deps|] == deps;
  }

  lemma {:induction false} MentionsGrow(deps: seq<nat>, k: nat, d: nat, index: nat)
    requires k < |deps|
    ensures Mentions(deps[..k + 1], d, index)
         == Mentions(deps[..k], d, index) + if deps[k] == d then [index] else []
  {
    assert deps[..k + 1][..k] == deps[..k];
  }

  /** Which steps wait on which, one entry per mention. */
  method DependentLists(wf: Workflow) returns (lists: seq<seq<nat>>)
    ensures |lists| == |wf|
    ensures forall d, x | 0 <= d < |wf| && 0 <= x < |wf| ::
              multiset(lists[d])[x] == multiset(wf[x].dependsOn)[d]
    ensures forall d, x | 0 <= d < |wf| && x in lists[d] :: x < |wf|
  {
    lists := seq(|wf|, _ => []);
    for index := 0 to |wf|
      invariant |lists| == |wf|
      invariant forall d, x | 0 <= d < |wf| && x in lists[d] :: x < index
      invariant forall d, x | 0 <= d < |wf| && 0 <= x < index ::
                  multiset(lists[d])[x] == multiset(wf[x].dependsOn)[d]
    {
      var more := AddMentions(lists, wf[index].dependsOn, index);
      forall d, x | 0 <= d < |wf| && 0 <= x <= index
        ensures multiset(more[d])[x] == multiset(wf[x].dependsOn)[d]
      {
        assert x == index ==> x !in lists[d];
        MentionsCount(wf[index].dependsOn, d, index);
        assert x != index ==> x !in Mentions(wf[index].dependsOn, d, index);
      }
      forall d, x | 0 <= d < |wf| && x in more[d] ensures x < index + 1 {
        MentionsCount(wf[index].dependsOn, d, index);
      }
      lists := more;
    }
  }

  /** Puts `x` where the list stays sorted. */
  method InsertSorted(ready: seq<nat>, x: nat) returns (r: seq<nat>)
    requires Sorted(ready) && x !in ready
    ensures Sorted(r) && Elems(r) == Elems(ready) + {x}
  {
    var position := 0;
    while position < |ready| && ready[position] < x
      invariant 0 <= position <= |ready|
      invariant forall i | 0 <= i < position :: ready[i] < x
    {
      position := position + 1;
    }
    InsertedSorted(ready, position, x);
    InsertedElems(ready, position, x);
    r := Inserted(ready, position, x);
  }

  function Inserted(ready: seq<nat>, position: nat, x: nat): seq<nat>
    requires position <= |ready|
  {
    ready[..position] + [x] + ready[position..]
  }

  lemma {:induction false} InsertedElems(ready: seq<nat>, position: nat, x: nat)
    requires position <= |ready|
    ensures Elems(Inserted(ready, position, x)) == Elems(ready) + {x}
  {
    var a, b := ready[..position], ready[position..];
    assert ready == a + b;
    forall y ensures y in a + [x] + b <==> y in a + b || y == x {}
  }

  lemma {:induction false} InsertedSorted(ready: seq<nat>, position: nat, x: nat)
    requires Sorted(ready) && x !in ready && position <= |ready|
    requires forall i | 0 <= i < position :: ready[i] < x
    requires position < |ready| ==> x <= ready[position]
    ensures Sorted(Inserted(ready, position, x))
  {
    var r := Inserted(ready, position, x);
    assert position < |ready| ==> ready[position] in ready;
    assert forall i | 0 <= i < |r| :: r[i] == if i < position then ready[i] else if i == position then x else ready[i - 1];
  }

  /** What Kahn's loop knows between two iterations. */
  ghost predicate KahnInv(wf: Workflow, order: seq<nat>, ready: seq<nat>, remaining: seq<int>) {
    && |remaining| == |wf|
    && Sorted(ready)
    && Distinct(order)
    && (forall i | 0 <= i < |order| :: order[i] < |wf|)
    && LeastFirst(wf, order)
    && (forall x | 0 <= x < |wf| :: remaining[x] == Unmet(wf[x].dependsOn, Elems(order)))
    && (forall x :: x in ready <==> Ready(wf, Elems(order), x))
  }

  function StepsWithZero(remaining: seq<int>, bound: nat): (r: seq<nat>)
    requires bound <= |remaining|
    ensures Sorted(r)
    ensures forall x :: x in r <==> 0 <= x < bound && remaining[x] == 0
  {
    if bound == 0 then []
    else
      var rest := StepsWithZero(remaining, bound - 1);
      assert forall i | 0 <= i < |rest| :: rest[i] in rest;
      rest + (if remaining[bound - 1] == 0 then [bound - 1] else [])
  }

  lemma {:induction false} LeastFirstExtends(wf: Workflow, order: seq<nat>, index: nat)
    requires LeastFirst(wf, order)
    requires Ready(wf, Elems(order), index)
    requires forall x: nat | x < index :: !Ready(wf, Elems(order), x)
    ensures LeastFirst(wf, order + [index])
  {
    var longer := order + [index];
    forall i | 0 <= i < |longer|
      ensures Ready(wf, Elems(longer[..i]), longer[i])
      ensures forall x: nat | x < longer[i] :: !Ready(wf, Elems(longer[..i]), x)
    {
      assert longer[..i] == order[..i];
      if i == |order| { assert order[..i] == order; }
    }
  }

  /** Takes one step's mentions off the counters; whatever reaches zero joins the list. */
  method Settle(wf: Workflow, list: seq<nat>, was: seq<int>, queue: seq<nat>)
    returns (remaining: seq<int>, ready: seq<nat>)
    requires |was| == |wf| && Sorted(queue)
    requires forall x | x in list :: x < |wf|
    requires forall x | 0 <= x < |wf| :: multiset(list)[x] <= was[x]
    requires forall x | 0 <= x < |wf| && x in list :: x !in queue
    ensures |remaining| == |wf| && Sorted(ready)
    ensures forall x | 0 <= x < |wf| :: remaining[x] == was[x] - multiset(list)[x]
    ensures forall x :: x in ready <==> x in queue || (x in list && remaining[x] == 0)
  {
    remaining, ready := was, queue;
    for i := 0 to |list|
      invariant |remaining| == |wf| && Sorted(ready)
      invariant forall x | 0 <= x < |wf| :: remaining[x] == was[x] - multiset(list[..i])[x]
      invariant forall x | x in list[..i] :: x in list
      invariant forall x :: x in ready <==> x in queue || (x in list[..i] && remaining[x] == 0)
    {
      var dependent := list[i];
      assert dependent in list;
      assert list[..i + 1] == list[..i] + [dependent];
      assert list == list[..i + 1] + list[i + 1..];
      assert multiset(list) == multiset(list[..i + 1]) + multiset(list[i + 1..]);
      remaining := remaining[dependent := remaining[dependent] - 1];
      if remaining[dependent] == 0 {
        ready := InsertSorted(ready, dependent);
        assert forall x :: x in ready <==> x in Elems(ready);
      }
    }
    assert list[..|list|] == list;
  }

  /** Moving the first ready step to the plan keeps what the loop knows. */
  lemma {:induction false} KahnStep(wf: Workflow, order: seq<nat>, queue: seq<nat>, was: seq<int>,
                 list: seq<nat>, remaining: seq<int>, ready: seq<nat>)
    requires KahnInv(wf, order, queue, was) && queue != []
    requires forall x | 0 <= x < |wf| :: multiset(list)[x] == multiset(wf[x].dependsOn)[queue[0]]
    requires |remaining| == |wf| && Sorted(ready)
    requires forall x | x in list :: x < |wf|
    requires forall x | 0 <= x < |wf| :: remaining[x] == was[x] - multiset(list)[x]
    requires forall x :: x in ready <==> x in queue[1..] || (x in list && remaining[x] == 0)
    ensures KahnInv(wf, order + [queue[0]], ready, remaining)
  {
    var index := queue[0];
    var before := Elems(order);
    var longer := order + [index];
    assert index in queue;
    forall x: nat | x < index ensures !Ready(wf, before, x) {
      assert x !in queue;
    }
    LeastFirstExtends(wf, order, index);
    assert Elems(longer) == before + {index};
    forall x | 0 <= x < |wf| ensures remaining[x] == Unmet(wf[x].dependsOn, Elems(longer)) {
      UnmetAdd(wf[x].dependsOn, before, index);
    }
    forall x: nat ensures x in ready <==> Ready(wf, Elems(longer), x) {
      if x < |wf| {
        UnmetZero(wf[x].dependsOn, before);
        UnmetZero(wf[x].dependsOn, Elems(longer));
        assert x in queue[1..] <==> x in queue && x != index by {
          assert queue == [index] + queue[1..];
        }
        assert x in list <==> multiset(list)[x] > 0;
        assert x in queue <==> Ready(wf, before, x);
      } else {
        assert x in queue[1..] ==> x in queue;
      }
    }
  }

  /** A list of distinct steps as long as the workflow names every step. */
  lemma {:induction false} CoversAll(n: nat, s: seq<nat>)
    requires Distinct(s) && (forall i | 0 <= i < |s| :: s[i] < n)
    ensures |Elems(s)| == |s| <= n
    ensures |s| == n ==> Elems(s) == Below(n)
  {
    DistinctSize(s);
    SubsetSize(Elems(s), Below(n));
  }

  lemma {:induction false} DistinctSize(s: seq<nat>)
    requires Distinct(s)
    ensures |Elems(s)| == |s|
  {
    if s != [] {
      var last := |s| - 1;
      assert s == s[..last] + [s[last]];
      DistinctSize(s[..last]);
      assert Elems(s) == Elems(s[..last]) + {s[last]};
    }
  }

  /** With nothing ready, a topological order can only list steps already in the plan. */
  lemma {:induction false} PlanHoldsPrefix(wf: Workflow, order: seq<nat>, other: seq<nat>, i: nat)
    requires forall x: nat :: !Ready(wf, Elems(order), x)
    requires Topological(wf, other) && i <= |other|
    ensures Elems(other[..i]) <= Elems(order)
  {
    if i > 0 {
      PlanHoldsPrefix(wf, order, other, i - 1);
      assert other[..i] == other[..i - 1] + [other[i - 1]];
      assert !Ready(wf, Elems(order), other[i - 1]);
    }
  }

  lemma {:induction false} PlanFilled(wf: Workflow, order: seq<nat>, other: seq<nat>)
    requires forall x: nat :: !Ready(wf, Elems(order), x)
    requires Distinct(order) && forall i | 0 <= i < |order| :: order[i] < |wf|
    requires Topological(wf, other)
    ensures |order| == |wf|
  {
    PlanHoldsPrefix(wf, order, other, |other|);
    assert other[..|other|] == other;
    CoversAll(|wf|, other);
    CoversAll(|wf|, order);
    SubsetSize(Elems(other), Elems(order));
  }

  /** Whatever is not in the plan waits on something else that is not. */
  lemma {:induction false} StuckSteps(wf: Workflow, order: seq<nat>, remaining: seq<int>, stuck: seq<nat>)
    requires KahnInv(wf, order, [], remaining) && |order| != |wf|
    requires forall x :: x in stuck <==> 0 <= x < |wf| && x !in order
    ensures stuck != [] && !Acyclic(wf)
    ensures forall x | x in stuck :: x < |wf| && exists d | d in Deps(wf, x) :: d >= |wf| || d in stuck
  {
    CoversAll(|wf|, order);
    assert forall x: nat :: !Ready(wf, Elems(order), x) by {
      forall x: nat ensures !Ready(wf, Elems(order), x) { assert x !in []; }
    }
    forall x | x in stuck ensures exists d | d in Deps(wf, x) :: d >= |wf| || d in stuck {
      assert !Ready(wf, Elems(order), x);
      var d :| d in Deps(wf, x) && d !in Elems(order);
    }
    assert stuck == [] ==> Elems(order) == Below(|wf|);
    forall other ensures !Topological(wf, other) {
      if Topological(wf, other) { PlanFilled(wf, order, other); }
    }
  }

  /** Kahn's algorithm, lowest index first. Succeeds on exactly the workflows that
      have a topological order, and then returns the greedy least one; otherwise
      every step it names waits on another it names, or on a step that does not exist. */
  method Order(wf: Workflow) returns (r: Result<seq<nat>, seq<nat>>)
    ensures r.Ok? <==> Acyclic(wf)
    ensures r.Ok? ==> Topological(wf, r.value) && LeastFirst(wf, r.value)
    ensures r.Err? ==> r.error != [] && forall x | x in r.error ::
                         x < |wf| && exists d | d in Deps(wf, x) :: d >= |wf| || d in r.error
  {
    var remaining: seq<int> := seq(|wf|, x requires 0 <= x < |wf| => |wf[x].dependsOn|);
    var dependents := DependentLists(wf);
    var ready := StepsWithZero(remaining, |wf|);
    var order := [];
    assert KahnInv(wf, order, ready, remaining) by {
      forall x | 0 <= x < |wf| ensures remaining[x] == Unmet(wf[x].dependsOn, Elems(order)) {
        UnmetEmpty(wf[x].dependsOn);
        assert Elems(order) == {};
      }
      forall x: nat ensures x in ready <==> Ready(wf, Elems(order), x) {
        if x < |wf| { UnmetZero(wf[x].dependsOn, Elems(order)); }
      }
    }

    while ready != []
      invariant KahnInv(wf, order, ready, remaining)
      decreases |wf| - |order|
    {
      var index := ready[0];
      assert index in ready;
      var list := dependents[index];
      ghost var was, queue := remaining, ready;
      forall x | 0 <= x < |wf| ensures multiset(list)[x] <= remaining[x] {
        UnmetAdd(wf[x].dependsOn, Elems(order), index);
      }
      forall x | x in list ensures x !in ready[1..] {
        assert multiset(list)[x] > 0;
        assert multiset(wf[x].dependsOn)[index] > 0;
        assert !Ready(wf, Elems(order), x);
      }
      remaining, ready := Settle(wf, list, remaining, ready[1..]);
      KahnStep(wf, order, queue, was, list, remaining, ready);
      order := order + [index];
      CoversAll(|wf|, order);
    }

    CoversAll(|wf|, order);
    if |order| != |wf| {
      var stuck := Outside(order, |wf|);
      StuckSteps(wf, order, remaining, stuck);
      return Err(stuck);
    }
    assert Topological(wf, order);
    return Ok(order);
  }

  /** The steps below `bound` that `order` leaves out. */
  function Outside(order: seq<nat>, bound: nat): (r: seq<nat>)
    ensures forall x :: x in r <==> 0 <= x < bound && x !in order
  {
    if bound == 0 then []
    else Outside(order, bound - 1) + (if bound - 1 in order then [] else [bound - 1])
  }
}
