/** Dependency graphs and the order a least-first ready set visits them in.

    A graph maps each step to its direct dependencies. Nothing here mentions counters: this is
    the reference the two counter-driven loops of the workflow crate are measured against. */
module Graphs {
  import opened Collections

  /** Position of a validated identifier in the total order of identifiers. */
  type StepId = int
  type Graph = map<StepId, set<StepId>>

  ghost predicate Closed(g: Graph) {
    forall s | s in g :: g[s] <= g.Keys
  }

  /** Steps not yet taken whose direct dependencies all are. */
  function Ready(g: Graph, done: set<StepId>): set<StepId> {
    set s | s in g && s !in done && g[s] <= done
  }

  function Successors(g: Graph, d: StepId): set<StepId> {
    set s | s in g && d in g[s]
  }

  /** Every entry is the least step that was ready when it was taken. */
  ghost predicate Greedy(g: Graph, order: seq<StepId>) {
    forall i | 0 <= i < |order| :: TakenLeast(g, order, i)
  }

  ghost predicate TakenLeast(g: Graph, order: seq<StepId>, i: nat)
    requires i < |order|
  {
    var ready := Ready(g, Elements(order[..i]));
    ready != {} && order[i] == Least(ready)
  }

  /** A greedy order that stopped only because nothing was ready. */
  ghost predicate Exhausted(g: Graph, order: seq<StepId>) {
    Greedy(g, order) && Ready(g, Elements(order)) == {}
  }

  /** A permutation of the steps that puts every dependency before its dependents. */
  ghost predicate Topological(g: Graph, order: seq<StepId>) {
    && Distinct(order)
    && Elements(order) == g.Keys
    && forall i | 0 <= i < |order| :: g[order[i]] <= Elements(order[..i])
  }

  ghost predicate LexLeq(a: seq<int>, b: seq<int>) {
    a == b || exists i :: 0 <= i < |a| && i < |b| && a[..i] == b[..i] && a[i] < b[i]
  }

  /** Consecutive entries are dependent, dependency. */
  ghost predicate Walk(g: Graph, p: seq<StepId>) {
    p != [] && (forall i | 0 <= i < |p| :: p[i] in g) && forall i | 1 <= i < |p| :: p[i] in g[p[i - 1]]
  }

  ghost predicate Cycle(g: Graph, p: seq<StepId>) {
    Walk(g, p) && |p| > 1 && p[0] == p[|p| - 1]
  }

  ghost predicate Acyclic(g: Graph) {
    forall p: seq<StepId> :: !Cycle(g, p)
  }

  /** Steps each of which needs another of them, so none can ever become ready. */
  ghost predicate Blocked(g: Graph, s: set<StepId>) {
    s <= g.Keys && forall x | x in s :: g[x] * s != {}
  }

  /** `a` is a direct or transitive dependency of `b`. */
  ghost predicate Ancestor(g: Graph, a: StepId, b: StepId) {
    exists p: seq<StepId> :: Walk(g, p) && |p| > 1 && p[0] == b && p[|p| - 1] == a
  }

  lemma GreedyPrefix(g: Graph, order: seq<StepId>, n: nat)
    requires Greedy(g, order) && n <= |order|
    ensures Greedy(g, order[..n])
  {
    forall i | 0 <= i < n ensures TakenLeast(g, order[..n], i) {
      assert order[..n][..i] == order[..i];
      assert TakenLeast(g, order, i);
    }
  }

  lemma GreedyExtend(g: Graph, order: seq<StepId>)
    requires Greedy(g, order) && Ready(g, Elements(order)) != {}
    ensures Greedy(g, order + [Least(Ready(g, Elements(order)))])
  {
    var longer := order + [Least(Ready(g, Elements(order)))];
    forall i | 0 <= i < |longer| ensures TakenLeast(g, longer, i) {
      assert longer[..i] == order[..i];
      assert i < |order| ==> TakenLeast(g, order, i);
      assert i == |order| ==> order[..i] == order;
    }
  }

  lemma GreedySound(g: Graph, order: seq<StepId>)
    requires Greedy(g, order)
    ensures Distinct(order) && Elements(order) <= g.Keys
    ensures forall i | 0 <= i < |order| :: g[order[i]] <= Elements(order[..i])
  {
    forall i | 0 <= i < |order|
      ensures order[i] in g && order[i] !in Elements(order[..i]) && g[order[i]] <= Elements(order[..i])
    {
      assert TakenLeast(g, order, i);
    }
    forall i, j | 0 <= i < j < |order| ensures order[i] != order[j] {
      assert order[i] == order[..j][i];
    }
  }

  /** Being greedy leaves no choice: any greedy order is a prefix of an exhausted one. */
  lemma {:induction false} GreedyIsPrefix(g: Graph, a: seq<StepId>, order: seq<StepId>)
    requires Greedy(g, a) && Exhausted(g, order)
    ensures a <= order
  {
    if a != [] {
      var n := |a| - 1;
      GreedyPrefix(g, a, n);
      GreedyIsPrefix(g, a[..n], order);
      assert TakenLeast(g, a, n);
      assert a[..n] != order;
      assert TakenLeast(g, order, n) && order[..n] == a[..n];
      assert a == a[..n] + [a[n]];
    }
  }

  lemma ExhaustedUnique(g: Graph, a: seq<StepId>, b: seq<StepId>)
    requires Exhausted(g, a) && Exhausted(g, b)
    ensures a == b
  {
    GreedyIsPrefix(g, a, b);
    GreedyIsPrefix(g, b, a);
  }

  /** The stable order is the lexicographically least topological order. */
  lemma LeastTopologicalOrder(g: Graph, order: seq<StepId>, other: seq<StepId>)
    requires Greedy(g, order) && Elements(order) == g.Keys && Topological(g, other)
    ensures Topological(g, order)
    ensures LexLeq(order, other)
  {
    GreedySound(g, order);
    DistinctCount(order);
    DistinctCount(other);
    if order != other {
      var i := FirstDifference(order, other);
      assert TakenLeast(g, order, i);
      assert other[i] !in Elements(other[..i]) by {
        assert forall k | 0 <= k < i :: other[..i][k] == other[k];
      }
      assert other[i] in Elements(other);
      assert other[i] in Ready(g, Elements(order[..i]));
    }
  }

  lemma {:induction false} FirstDifference(a: seq<int>, b: seq<int>) returns (i: nat)
    requires |a| == |b| && a != b
    ensures i < |a| && a[..i] == b[..i] && a[i] != b[i]
  {
    if a[0] != b[0] {
      i := 0;
    } else {
      assert a == [a[0]] + a[1..] && b == [b[0]] + b[1..];
      i := FirstDifference(a[1..], b[1..]);
      assert a[..i + 1] == [a[0]] + a[1..][..i] && b[..i + 1] == [b[0]] + b[1..][..i];
      i := i + 1;
    }
  }

  /** What an exhausted order leaves over is the greatest blocked set. */
  lemma LeftoverIsGreatestBlocked(g: Graph, order: seq<StepId>)
    requires Closed(g) && Exhausted(g, order)
    ensures Blocked(g, g.Keys - Elements(order))
    ensures forall s | Blocked(g, s) :: s <= g.Keys - Elements(order)
  {
    var left := g.Keys - Elements(order);
    forall x | x in left ensures g[x] * left != {} {
      assert x !in Ready(g, Elements(order));
      var d := Outsider(g[x], Elements(order));
      assert d in g[x] * left;
    }
    forall s | Blocked(g, s) ensures s <= left {
      GreedySound(g, order);
      BlockedNeverTaken(g, order, s, |order|);
      assert order[..|order|] == order;
    }
  }

  lemma {:induction false} BlockedNeverTaken(g: Graph, order: seq<StepId>, s: set<StepId>, n: nat)
    requires n <= |order| && Blocked(g, s) && Greedy(g, order)
    ensures s !! Elements(order[..n])
  {
    if n > 0 {
      BlockedNeverTaken(g, order, s, n - 1);
      assert TakenLeast(g, order, n - 1);
      assert order[..n] == order[..n - 1] + [order[n - 1]];
    }
  }

  /** Following blocked needs far enough must revisit a step. */
  lemma {:induction false} BlockedWalk(g: Graph, s: set<StepId>, n: nat) returns (p: seq<StepId>)
    requires Blocked(g, s) && s != {}
    ensures |p| == n + 1 && Walk(g, p) && Elements(p) <= s
  {
    if n == 0 {
      var x := Member(s);
      p := [x];
    } else {
      p := BlockedWalk(g, s, n - 1);
      var last := p[|p| - 1];
      assert last in Elements(p) && last in s;
      var next := Member(g[last] * s);
      ElementsAppend(p, next);
      p := p + [next];
    }
  }

  lemma BlockedHasCycle(g: Graph, s: set<StepId>)
    requires Blocked(g, s) && s != {}
    ensures !Acyclic(g)
  {
    var p := BlockedWalk(g, s, |s|);
    if Distinct(p) {
      DistinctCount(p);
      SubsetCount(Elements(p), s);
      assert false;
    }
    var i, j :| 0 <= i < j < |p| && p[i] == p[j];
    var c := p[i..j + 1];
    assert c[0] == p[i] && c[|c| - 1] == p[j];
    forall k | 1 <= k < |c| ensures c[k] in g[c[k - 1]] {
      assert c[k] == p[i + k] && c[k - 1] == p[i + k - 1];
    }
    assert Cycle(g, c);
  }

  /** Along a walk from a taken step, everything was taken earlier. */
  lemma {:induction false} WalkDescends(g: Graph, order: seq<StepId>, p: seq<StepId>, i: nat) returns (j: nat)
    requires Greedy(g, order) && Walk(g, p) && i < |order| && order[i] == p[0]
    ensures j < |order| && order[j] == p[|p| - 1]
    ensures |p| > 1 ==> j < i
    decreases |p|
  {
    j := i;
    if |p| > 1 {
      GreedySound(g, order);
      assert p[1] in g[p[0]];
      var k :| 0 <= k < i && order[..i][k] == p[1];
      j := WalkDescends(g, order, p[1..], k);
    }
  }

  /** Every step is taken exactly when the graph has no cycle. */
  lemma ExhaustedIffAcyclic(g: Graph, order: seq<StepId>)
    requires Closed(g) && Exhausted(g, order)
    ensures Elements(order) == g.Keys <==> Acyclic(g)
  {
    GreedySound(g, order);
    var left := g.Keys - Elements(order);
    LeftoverIsGreatestBlocked(g, order);
    if left != {} {
      BlockedHasCycle(g, left);
    } else {
      assert forall x | x in g :: x in left || x in Elements(order);
      forall p: seq<StepId> | Cycle(g, p) ensures false {
        assert p[0] in Elements(order);
        var i :| 0 <= i < |order| && order[i] == p[0];
        var j := WalkDescends(g, order, p, i);
      }
    }
  }
}
