/** Authoring order and the pipeline shorthand. */
module Authoring {
  import opened Collections
  import opened Graphs
  import opened Definition

  // ---------------------------------------------------------------------------------------------
  // The order steps and dependencies are written in
  // ---------------------------------------------------------------------------------------------

  ghost predicate Bijection(perm: seq<nat>, inverse: seq<nat>) {
    && |perm| == |inverse|
    && (forall i | 0 <= i < |perm| :: perm[i] < |perm| && inverse[perm[i]] == i)
    && (forall k | 0 <= k < |inverse| :: inverse[k] < |inverse| && perm[inverse[k]] == k)
  }

  ghost predicate SameStep<J>(a: StepSpec<J>, b: StepSpec<J>) {
    a.id == b.id && a.job == b.job && multiset(a.needs) == multiset(b.needs)
  }

  /** `b` authors the steps of `a` in another order, each with its dependencies in any order. */
  ghost predicate Reauthors<J>(a: seq<StepSpec<J>>, b: seq<StepSpec<J>>, perm: seq<nat>, inverse: seq<nat>) {
    && Bijection(perm, inverse) && |perm| == |a| == |b|
    && forall i | 0 <= i < |b| :: SameStep(a[perm[i]], b[i])
  }

  /** Authoring order decides neither whether a definition compiles nor what it compiles to. */
  lemma AuthoringOrderIrrelevant<J>(id: Text, version: Text, a: seq<StepSpec<J>>, b: seq<StepSpec<J>>,
                                    perm: seq<nat>, inverse: seq<nat>, d: WorkflowDefinition<J>)
    requires Reauthors(a, b, perm, inverse)
    ensures Compilable(id, version, a) <==> Compilable(id, version, b)
    ensures IsCompilation(id, version, a, d) <==> IsCompilation(id, version, b, d)
  {
    CompilableEitherWay(id, version, a, b, perm, inverse);
    CompilableEitherWay(id, version, b, a, inverse, perm);
    if Normalizes(a, d.steps) {
      ReauthoredNormalizes(a, b, perm, inverse, d.steps);
    }
    if Normalizes(b, d.steps) {
      ReauthoredNormalizes(b, a, inverse, perm, d.steps);
    }
  }

  lemma CompilableEitherWay<J>(id: Text, version: Text, a: seq<StepSpec<J>>, b: seq<StepSpec<J>>,
                               perm: seq<nat>, inverse: seq<nat>)
    requires Reauthors(a, b, perm, inverse)
    ensures Compilable(id, version, a) ==> Compilable(id, version, b)
  {
    if Clean(a) {
      NormalizesStepsOf(a);
      ReauthoredNormalizes(a, b, perm, inverse, StepsOf(a));
      NormalFormUnique(b, StepsOf(a));
    }
  }

  lemma ReauthoredNormalizes<J>(a: seq<StepSpec<J>>, b: seq<StepSpec<J>>, perm: seq<nat>, inverse: seq<nat>,
                                steps: map<StepId, StepDefinition<J>>)
    requires Reauthors(a, b, perm, inverse) && Normalizes(a, steps)
    ensures Normalizes(b, steps)
  {
    forall i | 0 <= i < |b|
      ensures b[i].id.Named? && CleanNeeds(b[i].needs)
      ensures b[i].id.id in steps && steps[b[i].id.id] == StepOf(b[i])
    {
      assert SameStep(a[perm[i]], b[i]);
      SameNeeds(a[perm[i]].needs, b[i].needs);
    }
    forall i, j | 0 <= i < j < |b| ensures b[i].id != b[j].id {
      assert SameStep(a[perm[i]], b[i]) && SameStep(a[perm[j]], b[j]);
      assert inverse[perm[i]] == i && inverse[perm[j]] == j;
      assert perm[i] < perm[j] || perm[j] < perm[i];
    }
    forall s | s in steps ensures exists i :: 0 <= i < |b| && b[i].id == Named(s) {
      var k :| 0 <= k < |a| && a[k].id == Named(s);
      assert SameStep(a[perm[inverse[k]]], b[inverse[k]]);
    }
  }

  lemma SameNeeds(a: seq<Text>, b: seq<Text>)
    requires multiset(a) == multiset(b) && CleanNeeds(a)
    ensures CleanNeeds(b) && Ids(a) == Ids(b)
  {
    assert forall t :: t in a <==> t in multiset(a);
    assert forall t :: t in b <==> t in multiset(b);
    forall t ensures multiset(b)[t] <= 1 {
      OnceInDistinct(a, t);
    }
    OnceIsDistinct(b);
    assert forall i | 0 <= i < |b| :: b[i] in a;
  }

  lemma {:induction false} OnceInDistinct(a: seq<Text>, t: Text)
    requires Distinct(a)
    ensures multiset(a)[t] <= 1
  {
    if a != [] {
      var n := |a| - 1;
      assert a == a[..n] + [a[n]];
      OnceInDistinct(a[..n], t);
      assert a[n] !in a[..n];
    }
  }

  lemma {:induction false} OnceIsDistinct(a: seq<Text>)
    requires forall t :: multiset(a)[t] <= 1
    ensures Distinct(a)
  {
    if a != [] {
      var init, last := a[..|a| - 1], a[|a| - 1];
      assert a == init + [last];
      assert multiset(a) == multiset(init) + multiset{last};
      forall t ensures multiset(init)[t] <= 1 {
        assert multiset(a)[t] <= 1;
      }
      OnceIsDistinct(init);
      assert multiset(a)[last] <= 1;
    }
  }

  // ---------------------------------------------------------------------------------------------
  // Pipelines
  // ---------------------------------------------------------------------------------------------

  /** What step `i` of a linear list needs: the step before it, if any. */
  function ChainLink<J>(specs: seq<StepSpec<J>>, i: nat): StepSpec<J>
    requires i < |specs|
  {
    specs[i].(needs := if i == 0 then [] else [specs[i - 1].id])
  }

  function Chained<J>(specs: seq<StepSpec<J>>): (r: seq<StepSpec<J>>)
    ensures |r| == |specs| && forall i | 0 <= i < |specs| :: r[i] == ChainLink(specs, i)
  {
    seq(|specs|, i requires 0 <= i < |specs| => ChainLink(specs, i))
  }

  ghost predicate FirstWithNeeds<J>(specs: seq<StepSpec<J>>, i: nat) {
    i < |specs| && specs[i].needs != [] && forall k | 0 <= k < i :: specs[k].needs == []
  }

  method BuildPipeline<J>(id: Text, version: Text, specs: seq<StepSpec<J>>)
    returns (r: Result<WorkflowDefinition<J>, DefinitionError>)
    ensures forall i: nat | FirstWithNeeds(specs, i) :: r == Err(PipelineStepHasDependencies(specs[i].id))
    ensures (forall i | 0 <= i < |specs| :: specs[i].needs == []) ==>
      && (r.Ok? <==> Compilable(id, version, Chained(specs)))
      && (r.Ok? ==> IsCompilation(id, version, Chained(specs), r.value))
      && (r.Err? ==> IsRefusal(id, version, Chained(specs), r.error))
  {
    var chain := ChainSteps(specs);
    if chain.Err? {
      return Err(chain.error);
    }
    r := Compile(id, version, chain.value);
  }

  method ChainSteps<J>(specs: seq<StepSpec<J>>) returns (r: Result<seq<StepSpec<J>>, DefinitionError>)
    ensures forall i: nat | FirstWithNeeds(specs, i) :: r == Err(PipelineStepHasDependencies(specs[i].id))
    ensures (forall i | 0 <= i < |specs| :: specs[i].needs == []) ==> r == Ok(Chained(specs))
  {
    var previous: seq<Text> := [];
    var steps := specs;
    for i := 0 to |specs|
      invariant |steps| == |specs| && previous == if i == 0 then [] else [specs[i - 1].id]
      invariant forall k | 0 <= k < i :: specs[k].needs == [] && steps[k] == ChainLink(specs, k)
      invariant forall k | i <= k < |specs| :: steps[k] == specs[k]
    {
      if steps[i].needs != [] {
        return Err(PipelineStepHasDependencies(steps[i].id));
      }
      steps := steps[i := steps[i].(needs := previous)];
      previous := [steps[i].id];
    }
    assert steps == Chained(specs);
    return Ok(steps);
  }

  /** `ids` in order, each needing exactly the one before. */
  ghost predicate IsChain(g: Graph, ids: seq<StepId>) {
    && Distinct(ids) && Elements(ids) == g.Keys
    && forall i | 0 <= i < |ids| :: ChainedAt(g, ids, i)
  }

  ghost predicate ChainedAt(g: Graph, ids: seq<StepId>, i: nat)
    requires i < |ids|
  {
    ids[i] in g && g[ids[i]] == if i == 0 then {} else {ids[i - 1]}
  }

  /** Distinct valid identities are all a pipeline needs; chaining never produces a cycle. */
  ghost predicate DistinctlyNamed<J>(specs: seq<StepSpec<J>>) {
    && (forall i | 0 <= i < |specs| :: specs[i].id.Named?)
    && forall i, j | 0 <= i < j < |specs| :: specs[i].id != specs[j].id
  }

  lemma PipelineCompilesIffDistinctlyNamed<J>(id: Text, version: Text, specs: seq<StepSpec<J>>)
    ensures Compilable(id, version, Chained(specs))
       <==> id.Named? && version.Named? && specs != [] && DistinctlyNamed(specs)
  {
    var chain := Chained(specs);
    CleanIffNamed(specs);
    if Clean(chain) {
      NormalizesStepsOf(chain);
      ChainGraph(specs, StepsOf(chain));
      ChainSound(GraphOf(StepsOf(chain)), StepIds(chain));
    }
  }

  lemma CleanIffNamed<J>(specs: seq<StepSpec<J>>)
    ensures Clean(Chained(specs)) <==> DistinctlyNamed(specs)
  {
    var chain := Chained(specs);
    assert forall i | 0 <= i < |specs| :: chain[i].id == specs[i].id;
    if DistinctlyNamed(specs) {
      assert forall i | 0 <= i < |specs| :: CleanNeeds(ChainLink(specs, i).needs);
    }
  }

  function StepIds<J>(specs: seq<StepSpec<J>>): (r: seq<StepId>)
    requires forall i | 0 <= i < |specs| :: specs[i].id.Named?
    ensures |r| == |specs| && forall i | 0 <= i < |specs| :: r[i] == specs[i].id.id
  {
    seq(|specs|, i requires 0 <= i < |specs| => specs[i].id.id)
  }

  lemma ChainGraph<J>(specs: seq<StepSpec<J>>, steps: map<StepId, StepDefinition<J>>)
    requires Normalizes(Chained(specs), steps)
    ensures IsChain(GraphOf(steps), StepIds(Chained(specs)))
  {
    var chain := Chained(specs);
    var ids, g := StepIds(chain), GraphOf(steps);
    forall i | 0 <= i < |ids| ensures ChainedAt(g, ids, i) {
      assert steps[chain[i].id.id] == StepOf(chain[i]);
      assert forall k | 0 <= k < |specs| :: specs[k].id == chain[k].id;
      LinkNeeds(specs, i);
    }
    forall s | s in g ensures s in ids {
      var i :| 0 <= i < |chain| && chain[i].id == Named(s);
      assert ids[i] == s;
    }
    forall i, j | 0 <= i < j < |ids| ensures ids[i] != ids[j] {
      assert chain[i].id != chain[j].id;
    }
  }

  lemma LinkNeeds<J>(specs: seq<StepSpec<J>>, i: nat)
    requires i < |specs| && forall k | 0 <= k < |specs| :: specs[k].id.Named?
    ensures Ids(ChainLink(specs, i).needs) == if i == 0 then {} else {specs[i - 1].id.id}
  {
    if i > 0 {
      assert ChainLink(specs, i).needs == [specs[i - 1].id];
    }
  }

  lemma {:induction false} ChainIsGreedy(g: Graph, ids: seq<StepId>, n: nat)
    requires IsChain(g, ids) && n <= |ids|
    ensures Greedy(g, ids[..n])
  {
    if n > 0 {
      ChainIsGreedy(g, ids, n - 1);
      OnlyNextReady(g, ids, n - 1);
      GreedyExtend(g, ids[..n - 1]);
      assert ids[..n] == ids[..n - 1] + [ids[n - 1]];
    }
  }

  lemma OnlyNextReady(g: Graph, ids: seq<StepId>, n: nat)
    requires IsChain(g, ids) && n < |ids|
    ensures var ready := Ready(g, Elements(ids[..n])); ready != {} && Least(ready) == ids[n]
  {
    var done := ids[..n];
    forall k | 0 <= k < |ids| ensures ids[k] in Elements(done) <==> k < n {
      assert k < n ==> done[k] == ids[k];
    }
    forall s | s in g ensures s in Ready(g, Elements(done)) <==> s == ids[n] {
      assert s in Elements(ids);
      var i :| 0 <= i < |ids| && ids[i] == s;
      assert ChainedAt(g, ids, i);
      if i > 0 {
      }
    }
    var ready := Ready(g, Elements(done));
    assert ids[n] in Elements(ids) && ids[n] in ready && forall y | y in ready :: y == ids[n];
  }

  lemma ChainExhausted(g: Graph, ids: seq<StepId>)
    requires IsChain(g, ids)
    ensures Exhausted(g, ids)
  {
    ChainIsGreedy(g, ids, |ids|);
    assert ids[..|ids|] == ids;
    assert forall s | s in g :: s in Elements(ids);
  }

  lemma ChainSound(g: Graph, ids: seq<StepId>)
    requires IsChain(g, ids)
    ensures Sound(g)
  {
    ChainExhausted(g, ids);
    forall s, d | s in g && d in g[s] ensures d in g && d != s {
      assert s in Elements(ids);
      var i :| 0 <= i < |ids| && ids[i] == s;
      assert ChainedAt(g, ids, i);
      assert i > 0 && d == ids[i - 1];
    }
    ExhaustedIffAcyclic(g, ids);
  }

  /** A pipeline's stable order is the order its steps were added in. */
  lemma PipelineOrderIsInsertionOrder<J>(id: Text, version: Text, specs: seq<StepSpec<J>>, d: WorkflowDefinition<J>)
    requires IsCompilation(id, version, Chained(specs), d)
    ensures d.topologicalOrder == StepIds(Chained(specs))
  {
    ChainGraph(specs, d.steps);
    ChainExhausted(GraphOf(d.steps), StepIds(Chained(specs)));
    ExhaustedUnique(GraphOf(d.steps), StepIds(Chained(specs)), d.topologicalOrder);
  }
}
