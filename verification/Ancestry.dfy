/** Which steps lie upstream of which. */
module Ancestry {
  import opened Core
  import opened Workflows

  /** Each step of the path is a dependency of the next. */
  predicate IsPath(wf: Workflow, p: seq<nat>) {
    && Within(p, |wf|)
    && (forall i | 0 <= i < |p| - 1 :: p[i] in Deps(wf, p[i + 1]))
  }

  predicate PathFromTo(wf: Workflow, p: seq<nat>, a: nat, x: nat) {
    |p| >= 2 && p[0] == a && p[|p| - 1] == x && IsPath(wf, p)
  }

  /** `x` depends on `a`, directly or through others. */
  ghost predicate Ancestor(wf: Workflow, a: nat, x: nat) {
    exists p :: PathFromTo(wf, p, a, x)
  }

  lemma {:induction false} DepIsAncestor(wf: Workflow, d: nat, x: nat)
    requires x < |wf| && d < |wf| && d in Deps(wf, x)
    ensures Ancestor(wf, d, x)
  {
    assert PathFromTo(wf, [d, x], d, x);
  }

  lemma {:induction false} AncestorTransitive(wf: Workflow, a: nat, b: nat, c: nat)
    requires Ancestor(wf, a, b) && Ancestor(wf, b, c)
    ensures Ancestor(wf, a, c)
  {
    var p :| PathFromTo(wf, p, a, b);
    var q :| PathFromTo(wf, q, b, c);
    assert PathFromTo(wf, p + q[1..], a, c);
  }

  /** The last edge of a path: `a` is a dependency of `x`, or upstream of one. */
  lemma {:induction false} LastEdge(wf: Workflow, a: nat, x: nat) returns (d: nat)
    requires Ancestor(wf, a, x)
    ensures a < |wf| && x < |wf| && d < |wf| && d in Deps(wf, x)
    ensures d == a || Ancestor(wf, a, d)
  {
    var p :| PathFromTo(wf, p, a, x);
    d := p[|p| - 2];
    if |p| > 2 { assert PathFromTo(wf, p[..|p| - 1], a, d); }
  }

  /** Upstream means earlier in any topological order. */
  lemma {:induction false} AncestorEarlier(wf: Workflow, order: seq<nat>, a: nat, i: nat) returns (j: nat)
    requires Topological(wf, order) && i < |order| && Ancestor(wf, a, order[i])
    ensures j < i && order[j] == a
  {
    var d := LastEdge(wf, a, order[i]);
    j := DepBefore(wf, order, i, d);
    if d != a { j := AncestorEarlier(wf, order, a, j); }
  }

  lemma {:induction false} NotOwnAncestor(wf: Workflow, order: seq<nat>, x: nat)
    requires Topological(wf, order) && x < |wf|
    ensures !Ancestor(wf, x, x)
  {
    var i := PlaceOf(wf, order, x);
    if Ancestor(wf, x, x) { var j := AncestorEarlier(wf, order, x, i); }
  }

  /** `x` and everything upstream of it. */
  ghost function Upstream(wf: Workflow, x: nat): set<nat> {
    set y | y in Below(|wf|) && (y == x || Ancestor(wf, y, x))
  }

  /** A set holding a step and the dependencies of all its members holds everything upstream. */
  lemma {:induction false} UpstreamWithin(wf: Workflow, order: seq<nat>, s: set<nat>, i: nat, a: nat)
    requires Topological(wf, order) && i < |order| && order[i] in s && Ancestor(wf, a, order[i])
    requires forall y | y in s :: y < |wf| && Deps(wf, y) <= s
    ensures a in s
  {
    var d := LastEdge(wf, a, order[i]);
    if d != a {
      var j := DepBefore(wf, order, i, d);
      UpstreamWithin(wf, order, s, j, a);
    }
  }

  lemma {:induction false} UpstreamClosed(wf: Workflow, order: seq<nat>, x: nat)
    requires Topological(wf, order) && x < |wf|
    ensures forall y | y in Upstream(wf, x) :: y < |wf| && Deps(wf, y) <= Upstream(wf, x)
  {
    forall y, d | y in Upstream(wf, x) && d in Deps(wf, y) ensures d in Upstream(wf, x) {
      var i := PlaceOf(wf, order, y);
      var j := DepBefore(wf, order, i, d);
      DepIsAncestor(wf, d, y);
      if y != x { AncestorTransitive(wf, d, y, x); }
    }
  }

  // ---- Joins ----

  ghost predicate Comparable(wf: Workflow, a: nat, b: nat) {
    a == b || Ancestor(wf, a, b) || Ancestor(wf, b, a)
  }

  /** Of any two dependencies of `j`, one is upstream of the other. */
  ghost predicate ChainedAt(wf: Workflow, j: nat)
    requires j < |wf|
  {
    forall a, b | a in Deps(wf, j) && b in Deps(wf, j) :: Comparable(wf, a, b)
  }

  ghost predicate Chained(wf: Workflow) {
    forall j: nat | j < |wf| :: ChainedAt(wf, j)
  }

  /** One of the two is a dependency of the other. */
  predicate Direct(wf: Workflow, a: nat, b: nat) {
    (b < |wf| && a in Deps(wf, b)) || (a < |wf| && b in Deps(wf, a))
  }

  predicate DirectAt(wf: Workflow, j: nat)
    requires j < |wf|
  {
    forall a, b | a in Deps(wf, j) && b in Deps(wf, j) && a != b :: Direct(wf, a, b)
  }

  /** Of any two dependencies of a step, one is a dependency of the other. */
  predicate DirectlyChained(wf: Workflow) {
    forall j: nat | j < |wf| :: DirectAt(wf, j)
  }

  lemma {:induction false} DirectIsChained(wf: Workflow, order: seq<nat>)
    requires Topological(wf, order) && DirectlyChained(wf)
    ensures Chained(wf)
  {
    forall j: nat | j < |wf| ensures ChainedAt(wf, j) {
      assert DirectAt(wf, j);
      var i := PlaceOf(wf, order, j);
      forall a, b | a in Deps(wf, j) && b in Deps(wf, j) ensures Comparable(wf, a, b) {
        var ia := DepBefore(wf, order, i, a);
        var ib := DepBefore(wf, order, i, b);
        if a in Deps(wf, b) { DepIsAncestor(wf, a, b); }
        if b in Deps(wf, a) { DepIsAncestor(wf, b, a); }
      }
    }
  }

  /** Two unrelated steps with a common descendant meet at a join of unrelated steps. */
  lemma {:induction false} UnrelatedMeet(wf: Workflow, order: seq<nat>, a: nat, b: nat, i: nat) returns (k: nat)
    requires Topological(wf, order) && i < |order|
    requires !Comparable(wf, a, b) && Ancestor(wf, a, order[i]) && Ancestor(wf, b, order[i])
    ensures k <= i && !ChainedAt(wf, order[k])
  {
    var m := order[i];
    var t := LastEdge(wf, a, m);
    var u := LastEdge(wf, b, m);
    if !Comparable(wf, t, u) {
      return i;
    }
    // The later of the two is downstream of both.
    var top := if t == u || Ancestor(wf, t, u) then u else t;
    assert Ancestor(wf, a, top) && Ancestor(wf, b, top) by { BothAbove(wf, a, b, t, u, top); }
    var j := DepBefore(wf, order, i, top);
    k := UnrelatedMeet(wf, order, a, b, j);
  }

  lemma {:induction false} BothAbove(wf: Workflow, a: nat, b: nat, t: nat, u: nat, top: nat)
    requires !Comparable(wf, a, b) && Comparable(wf, t, u)
    requires t == a || Ancestor(wf, a, t)
    requires u == b || Ancestor(wf, b, u)
    requires top == if t == u || Ancestor(wf, t, u) then u else t
    ensures Ancestor(wf, a, top) && Ancestor(wf, b, top)
  {
    if t == u {
    } else if Ancestor(wf, t, u) {
      if t != a { AncestorTransitive(wf, a, t, u); }
    } else {
      if u != b { AncestorTransitive(wf, b, u, t); }
    }
  }

  /** The last element of `order[..n]` that lies in `s`. */
  lemma {:induction false} LastIn(order: seq<nat>, s: set<nat>, n: nat) returns (i: nat)
    requires n <= |order| && exists k | 0 <= k < n :: order[k] in s
    ensures i < n && order[i] in s && forall k | i < k < n :: order[k] !in s
  {
    if order[n - 1] in s { i := n - 1; } else { i := LastIn(order, s, n - 1); }
  }

  lemma {:induction false} FirstUnchained(wf: Workflow, order: seq<nat>, n: nat) returns (i: nat)
    requires Topological(wf, order) && n <= |order|
    requires exists k | 0 <= k < n :: !ChainedAt(wf, order[k])
    ensures i < n && !ChainedAt(wf, order[i]) && forall k | 0 <= k < i :: ChainedAt(wf, order[k])
  {
    if exists k | 0 <= k < n - 1 :: !ChainedAt(wf, order[k]) {
      i := FirstUnchained(wf, order, n - 1);
    } else {
      i := n - 1;
    }
  }

  /** The dependencies of `j` that are neither `b` nor upstream of it. */
  ghost function Beside(wf: Workflow, j: nat, b: nat): set<nat>
    requires j < |wf|
  {
    set c | c in Deps(wf, j) && c != b && !Ancestor(wf, c, b)
  }

  /** Not every dependency of the first join of unrelated steps is upstream of one of
      them: two unrelated ones would have met there, earlier. */
  lemma {:induction false} SomeBeside(wf: Workflow, order: seq<nat>, i: nat, ib: nat)
    requires Topological(wf, order) && ib < i < |order| && order[ib] in Deps(wf, order[i])
    requires !ChainedAt(wf, order[i]) && forall k | 0 <= k < i :: ChainedAt(wf, order[k])
    ensures Beside(wf, order[i], order[ib]) != {}
  {
    var b := order[ib];
    var p, q :| p in Deps(wf, order[i]) && q in Deps(wf, order[i]) && !Comparable(wf, p, q);
    if p != b && q != b && Ancestor(wf, p, b) && Ancestor(wf, q, b) {
      var k := UnrelatedMeet(wf, order, p, q, ib);
    } else {
      assert p in Beside(wf, order[i], b) || q in Beside(wf, order[i], b);
    }
  }

  /** A join of unrelated steps has two dependencies that are unrelated to each other
      and upstream of none of its dependencies. */
  lemma {:induction false} UnrelatedTips(wf: Workflow, order: seq<nat>) returns (j: nat, a: nat, b: nat)
    requires Topological(wf, order) && !Chained(wf)
    ensures j < |wf| && a in Deps(wf, j) && b in Deps(wf, j) && !Comparable(wf, a, b)
    ensures forall c | c in Deps(wf, j) :: !Ancestor(wf, a, c) && !Ancestor(wf, b, c)
  {
    var bad: nat :| bad < |wf| && !ChainedAt(wf, bad);
    var at := PlaceOf(wf, order, bad);
    var i := FirstUnchained(wf, order, |order|);
    j := order[i];
    var p :| p in Deps(wf, j);
    var ip := DepBefore(wf, order, i, p);
    var ib := LastIn(order, Deps(wf, j), i);
    b := order[ib];
    SomeBeside(wf, order, i, ib);
    var c0 :| c0 in Beside(wf, j, b);
    var i0 := DepBefore(wf, order, i, c0);
    var ia := LastIn(order, Beside(wf, j, b), i);
    a := order[ia];
    forall c | c in Deps(wf, j) ensures !Ancestor(wf, a, c) && !Ancestor(wf, b, c) {
      NothingAboveTips(wf, order, i, a, b, ia, ib, c);
    }
  }

  lemma {:induction false} NothingAboveTips(wf: Workflow, order: seq<nat>, i: nat, a: nat, b: nat, ia: nat,
                                            ib: nat, c: nat)
    requires Topological(wf, order) && ia < i < |order| && ib < i && order[ia] == a && order[ib] == b
    requires a in Beside(wf, order[i], b)
    requires forall k | ia < k < i :: order[k] !in Beside(wf, order[i], b)
    requires forall k | ib < k < i :: order[k] !in Deps(wf, order[i])
    requires c in Deps(wf, order[i])
    ensures !Ancestor(wf, a, c) && !Ancestor(wf, b, c)
  {
    var ic := DepBefore(wf, order, i, c);
    if Ancestor(wf, b, c) {
      var k := AncestorEarlier(wf, order, b, ic);
    } else if Ancestor(wf, a, c) {
      var k := AncestorEarlier(wf, order, a, ic);
      assert k == ia;
      assert c != b;
      if Ancestor(wf, c, b) { AncestorTransitive(wf, a, c, b); }
    }
  }
}
