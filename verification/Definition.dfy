/** Compiling authored steps into a validated, normalized workflow definition. */
module Definition {
  import opened Collections
  import opened Graphs
  import opened Counters

  /** Authoring-time text. `Malformed` is blank or padded text; anything else is a validated
      identifier, represented by its place in the order of identifiers. */
  datatype Text = Malformed | Named(id: StepId)

  datatype StepSpec<J> = StepSpec(id: Text, needs: seq<Text>, job: J)

  datatype StepDefinition<J> = StepDefinition(id: StepId, needs: seq<StepId>, job: J)

  datatype WorkflowDefinition<J> = WorkflowDefinition(
    id: int, version: int, steps: map<StepId, StepDefinition<J>>, topologicalOrder: seq<StepId>)

  datatype IdentifierKind = WorkflowIdentifier | VersionIdentifier | StepIdentifier

  datatype DefinitionError =
    | InvalidIdentifier(kind: IdentifierKind)
    | NoSteps
    | PipelineStepHasDependencies(text: Text)
    | DuplicateStep(step: StepId)
    | DuplicateDependency(step: StepId, dependency: StepId)
    | MissingDependency(step: StepId, dependency: StepId)
    | SelfDependency(step: StepId)
    | CycleAmong(steps: seq<StepId>)

  // ---------------------------------------------------------------------------------------------
  // What authoring means, independent of how it is compiled
  // ---------------------------------------------------------------------------------------------

  function Ids(texts: seq<Text>): set<StepId> {
    set t | t in texts && t.Named? :: t.id
  }

  ghost predicate CleanNeeds(needs: seq<Text>) {
    (forall i | 0 <= i < |needs| :: needs[i].Named?) && Distinct(needs)
  }

  /** Every identifier is valid, no step repeats a dependency, no identity is used twice. */
  ghost predicate Clean<J>(specs: seq<StepSpec<J>>) {
    && (forall i | 0 <= i < |specs| :: specs[i].id.Named? && CleanNeeds(specs[i].needs))
    && forall i, j | 0 <= i < j < |specs| :: specs[i].id != specs[j].id
  }

  function StepOf<J>(spec: StepSpec<J>): StepDefinition<J>
    requires spec.id.Named?
  {
    StepDefinition(spec.id.id, Ascending(Ids(spec.needs)), spec.job)
  }

  /** `steps` holds exactly the authored steps, each with its dependencies in id order. */
  ghost predicate Normalizes<J>(specs: seq<StepSpec<J>>, steps: map<StepId, StepDefinition<J>>) {
    && Clean(specs)
    && (forall i | 0 <= i < |specs| :: specs[i].id.id in steps && steps[specs[i].id.id] == StepOf(specs[i]))
    && (forall s | s in steps :: exists i :: 0 <= i < |specs| && specs[i].id == Named(s))
  }

  /** The normalized steps of a clean list, later entries added to earlier ones. */
  function StepsOf<J>(specs: seq<StepSpec<J>>): map<StepId, StepDefinition<J>>
    requires Clean(specs)
  {
    if specs == [] then map[]
    else
      var n := |specs| - 1;
      StepsOf(specs[..n])[specs[n].id.id := StepOf(specs[n])]
  }

  function GraphOf<J>(steps: map<StepId, StepDefinition<J>>): Graph {
    map s | s in steps :: Elements(steps[s].needs)
  }

  ghost predicate SelfFree(g: Graph) {
    forall s | s in g :: s !in g[s]
  }

  /** The definition is what the authored steps mean. */
  ghost predicate IsCompilation<J>(id: Text, version: Text, specs: seq<StepSpec<J>>, d: WorkflowDefinition<J>) {
    && id == Named(d.id) && version == Named(d.version)
    && Normalizes(specs, d.steps)
    && Valid(d)
  }

  ghost predicate InOrderAt<J>(steps: map<StepId, StepDefinition<J>>, s: StepId) {
    s in steps ==> steps[s].id == s && Ascends(steps[s].needs)
  }

  /** What every holder of a definition may rely on. */
  ghost predicate Valid<J>(d: WorkflowDefinition<J>) {
    && d.steps.Keys != {}
    && (forall s :: InOrderAt(d.steps, s))
    && Closed(GraphOf(d.steps)) && SelfFree(GraphOf(d.steps))
    && Exhausted(GraphOf(d.steps), d.topologicalOrder)
    && Elements(d.topologicalOrder) == d.steps.Keys
  }

  ghost predicate Compilable<J>(id: Text, version: Text, specs: seq<StepSpec<J>>) {
    id.Named? && version.Named? && specs != [] && Clean(specs) && Sound(GraphOf(StepsOf(specs)))
  }

  ghost predicate Sound(g: Graph) {
    Closed(g) && SelfFree(g) && Acyclic(g)
  }

  // ---------------------------------------------------------------------------------------------
  // Which refusal is reported
  // ---------------------------------------------------------------------------------------------

  ghost predicate NeedFault(step: StepId, needs: seq<Text>, error: DefinitionError) {
    exists k :: 0 <= k < |needs| && CleanNeeds(needs[..k]) && NeedFaultAt(step, needs, k, error)
  }

  ghost predicate NeedFaultAt(step: StepId, needs: seq<Text>, k: nat, error: DefinitionError)
    requires k < |needs|
  {
    if needs[k].Malformed? then error == InvalidIdentifier(StepIdentifier)
    else needs[k] in needs[..k] && error == DuplicateDependency(step, needs[k].id)
  }

  ghost predicate SpecFault<J>(specs: seq<StepSpec<J>>, i: nat, error: DefinitionError)
    requires i < |specs|
  {
    var spec := specs[i];
    if spec.id.Malformed? then error == InvalidIdentifier(StepIdentifier)
    else if !CleanNeeds(spec.needs) then NeedFault(spec.id.id, spec.needs, error)
    else Listed(specs[..i], spec.id) && error == DuplicateStep(spec.id.id)
  }

  /** The first authored step at fault, and within it the first fault. */
  ghost predicate IdentityFault<J>(specs: seq<StepSpec<J>>, error: DefinitionError) {
    exists i :: 0 <= i < |specs| && Clean(specs[..i]) && SpecFault(specs, i, error)
  }

  ghost predicate EdgeFault(g: Graph, error: DefinitionError) {
    exists s, d :: s in g && FirstBadEdge(g, s, d) && EdgeError(g, s, d) == error
  }

  function EdgeError(g: Graph, s: StepId, d: StepId): DefinitionError {
    if d == s then SelfDependency(s) else MissingDependency(s, d)
  }

  predicate GoodEdge(g: Graph, s: StepId, d: StepId) {
    d != s && d in g
  }

  /** First in step-id order, then in dependency order. */
  ghost predicate FirstBadEdge(g: Graph, s: StepId, d: StepId)
    requires s in g
  {
    && d in g[s] && !GoodEdge(g, s, d)
    && (forall s', d' | s' in g && d' in g[s'] && s' < s :: GoodEdge(g, s', d'))
    && (forall d' | d' in g[s] && d' < d :: GoodEdge(g, s, d'))
  }

  /** A cycle refusal names exactly the greatest set of mutually blocked steps, in id order. */
  ghost predicate CycleFault(g: Graph, error: DefinitionError) {
    && error.CycleAmong? && Ascends(error.steps) && error.steps != []
    && Blocked(g, Elements(error.steps))
    && forall s | Blocked(g, s) :: s <= Elements(error.steps)
  }

  ghost predicate IsRefusal<J>(id: Text, version: Text, specs: seq<StepSpec<J>>, error: DefinitionError) {
    if id.Malformed? then error == InvalidIdentifier(WorkflowIdentifier)
    else if version.Malformed? then error == InvalidIdentifier(VersionIdentifier)
    else if specs == [] then error == NoSteps
    else if !Clean(specs) then IdentityFault(specs, error)
    else GraphFault(GraphOf(StepsOf(specs)), error)
  }

  ghost predicate GraphFault(g: Graph, error: DefinitionError) {
    if Closed(g) && SelfFree(g) then CycleFault(g, error) else EdgeFault(g, error)
  }

  // ---------------------------------------------------------------------------------------------
  // The compiler
  // ---------------------------------------------------------------------------------------------

  method CheckNeeds(step: StepId, needs: seq<Text>) returns (r: Result<seq<StepId>, DefinitionError>)
    ensures r.Ok? <==> CleanNeeds(needs)
    ensures r.Ok? ==> r.value == Ascending(Ids(needs))
    ensures r.Err? ==> NeedFault(step, needs, r.error)
  {
    var seen: set<StepId> := {};
    for k := 0 to |needs|
      invariant CleanNeeds(needs[..k])
      invariant seen == Ids(needs[..k])
    {
      if needs[k].Malformed? {
        assert NeedFaultAt(step, needs, k, InvalidIdentifier(StepIdentifier));
        return Err(InvalidIdentifier(StepIdentifier));
      }
      if needs[k].id in seen {
        assert needs[k] in needs[..k];
        assert NeedFaultAt(step, needs, k, DuplicateDependency(step, needs[k].id));
        assert !CleanNeeds(needs);
        return Err(DuplicateDependency(step, needs[k].id));
      }
      seen := seen + {needs[k].id};
      assert needs[..k + 1] == needs[..k] + [needs[k]];
    }
    assert needs[..|needs|] == needs;
    return Ok(Ascending(seen));
  }

  method Normalize<J>(specs: seq<StepSpec<J>>) returns (r: Result<map<StepId, StepDefinition<J>>, DefinitionError>)
    ensures r.Ok? <==> Clean(specs)
    ensures r.Ok? ==> r.value == StepsOf(specs)
    ensures r.Err? ==> IdentityFault(specs, r.error)
  {
    var steps: map<StepId, StepDefinition<J>> := map[];
    for i := 0 to |specs|
      invariant Clean(specs[..i]) && steps == StepsOf(specs[..i])
    {
      var spec := specs[i];
      if spec.id.Malformed? {
        return Err(InvalidIdentifier(StepIdentifier));
      }
      var needs := CheckNeeds(spec.id.id, spec.needs);
      if needs.Err? {
        return Err(needs.error);
      }
      NamedIffListed(specs[..i], spec.id);
      if spec.id.id in steps {
        return Err(DuplicateStep(spec.id.id));
      }
      SpecAccepted(specs, i);
      steps := steps[spec.id.id := StepDefinition(spec.id.id, needs.value, spec.job)];
    }
    assert specs[..|specs|] == specs;
    return Ok(steps);
  }

  lemma SpecAccepted<J>(specs: seq<StepSpec<J>>, i: nat)
    requires i < |specs| && Clean(specs[..i]) && specs[i].id.Named? && CleanNeeds(specs[i].needs)
    requires !Listed(specs[..i], specs[i].id)
    ensures Clean(specs[..i + 1])
    ensures StepsOf(specs[..i + 1]) == StepsOf(specs[..i])[specs[i].id.id := StepOf(specs[i])]
  {
    var next := specs[..i + 1];
    assert next[..i] == specs[..i];
    forall k | 0 <= k < i ensures next[k].id != next[i].id {
      assert specs[..i][k] == next[k];
    }
  }

  ghost predicate Listed<J>(specs: seq<StepSpec<J>>, id: Text) {
    exists k :: 0 <= k < |specs| && specs[k].id == id
  }

  lemma NamedIffListed<J>(specs: seq<StepSpec<J>>, id: Text)
    requires Clean(specs) && id.Named?
    ensures id.id in StepsOf(specs) <==> Listed(specs, id)
  {
    NormalizesStepsOf(specs);
  }

  lemma {:induction false} NormalizesStepsOf<J>(specs: seq<StepSpec<J>>)
    requires Clean(specs)
    ensures Normalizes(specs, StepsOf(specs))
  {
    if specs != [] {
      NormalizesStepsOf(specs[..|specs| - 1]);
      NormalizesNext(specs, StepsOf(specs[..|specs| - 1]));
    }
  }

  lemma NormalizesNext<J>(specs: seq<StepSpec<J>>, steps: map<StepId, StepDefinition<J>>)
    requires Clean(specs) && specs != [] && Normalizes(specs[..|specs| - 1], steps)
    ensures Normalizes(specs, steps[specs[|specs| - 1].id.id := StepOf(specs[|specs| - 1])])
  {
    var n := |specs| - 1;
    var next := steps[specs[n].id.id := StepOf(specs[n])];
    forall i | 0 <= i < |specs| ensures specs[i].id.id in next && next[specs[i].id.id] == StepOf(specs[i]) {
      if i < n {
        assert specs[..n][i] == specs[i] && specs[i].id != specs[n].id;
      }
    }
    forall s | s in next ensures exists i :: 0 <= i < |specs| && specs[i].id == Named(s) {
    }
  }

  /** There is one normal form. */
  lemma NormalFormUnique<J>(specs: seq<StepSpec<J>>, steps: map<StepId, StepDefinition<J>>)
    requires Normalizes(specs, steps)
    ensures steps == StepsOf(specs)
  {
    NormalizesStepsOf(specs);
    forall s ensures s in steps <==> s in StepsOf(specs) {
      assert s in steps ==> exists i :: 0 <= i < |specs| && specs[i].id == Named(s);
      assert s in StepsOf(specs) ==> exists i :: 0 <= i < |specs| && specs[i].id == Named(s);
    }
    forall s | s in steps ensures steps[s] == StepsOf(specs)[s] {
      var i :| 0 <= i < |specs| && specs[i].id == Named(s);
      assert specs[i].id.id == s;
    }
  }

  /** Count each step's dependencies and list each step's successors, refusing a dangling edge.
      Steps are visited in id order, so every successor list is built already sorted. */
  method CountEdges<J>(ghost g: Graph, steps: map<StepId, StepDefinition<J>>)
    returns (r: Result<(map<StepId, nat>, map<StepId, seq<StepId>>), DefinitionError>)
    requires g == GraphOf(steps) && forall s | s in steps :: Ascends(steps[s].needs)
    ensures r.Ok? <==> Closed(g) && SelfFree(g)
    ensures r.Ok? ==> Counts(g, {}, r.value.0) && Lists(g, r.value.1)
    ensures r.Err? ==> EdgeFault(g, r.error)
  {
    var indegree := map s | s in steps :: |steps[s].needs|;
    NeedCounts(steps);
    var outgoing := ListAllEdges(g, steps);
    if outgoing.Err? {
      return Err(outgoing.error);
    }
    return Ok((indegree, outgoing.value));
  }

  ghost predicate NeedsAreEdges<J>(g: Graph, steps: map<StepId, StepDefinition<J>>, s: StepId) {
    s in g && s in steps ==> g[s] == Elements(steps[s].needs) && Ascends(steps[s].needs)
  }

  method ListAllEdges<J>(ghost g: Graph, steps: map<StepId, StepDefinition<J>>)
    returns (r: Result<map<StepId, seq<StepId>>, DefinitionError>)
    requires g.Keys == steps.Keys
    requires forall s :: NeedsAreEdges(g, steps, s)
    ensures r.Ok? <==> Closed(g) && SelfFree(g)
    ensures r.Ok? ==> Lists(g, r.value)
    ensures r.Err? ==> EdgeFault(g, r.error)
  {
    var outgoing: map<StepId, seq<StepId>> := map s | s in steps :: [];
    var order := Ascending(steps.Keys);
    ScanStart(g, order, outgoing);
    for i := 0 to |order|
      invariant Scanned(g, order, i, [], outgoing)
    {
      assert order[i] in Elements(order) && NeedsAreEdges(g, steps, order[i]);
      var listed := ListEdges(g, order, i, order[i], steps[order[i]].needs, outgoing);
      if listed.Err? {
        return Err(listed.error);
      }
      outgoing := listed.value;
    }
    ScanDone(g, order, outgoing);
    return Ok(outgoing);
  }

  method ListEdges(ghost g: Graph, ghost order: seq<StepId>, ghost i: nat, s: StepId, needs: seq<StepId>,
                   initial: map<StepId, seq<StepId>>)
    returns (r: Result<map<StepId, seq<StepId>>, DefinitionError>)
    requires i < |order| && Ascends(order) && Elements(order) == g.Keys && order[i] in g && s == order[i]
    requires Ascends(needs) && Elements(needs) == g[s]
    requires Scanned(g, order, i, [], initial)
    ensures r.Ok? ==> Scanned(g, order, i + 1, [], r.value)
    ensures r.Err? ==> EdgeFault(g, r.error) && !(Closed(g) && SelfFree(g))
  {
    var outgoing := initial;
    for k := 0 to |needs|
      invariant Scanned(g, order, i, needs[..k], outgoing)
    {
      var d := needs[k];
      if d == s {
        BadEdgeReported(g, order, i, needs, k, outgoing);
        return Err(SelfDependency(s));
      }
      if d !in outgoing {
        BadEdgeReported(g, order, i, needs, k, outgoing);
        return Err(MissingDependency(s, d));
      }
      ScanEdge(g, order, i, needs, k, outgoing);
      outgoing := outgoing[d := outgoing[d] + [s]];
    }
    assert needs[..|needs|] == needs;
    return Ok(outgoing);
  }

  lemma NeedCounts<J>(steps: map<StepId, StepDefinition<J>>)
    requires forall s | s in steps :: Ascends(steps[s].needs)
    ensures Counts(GraphOf(steps), {}, map s | s in steps :: |steps[s].needs|)
  {
    forall s | s in steps ensures |steps[s].needs| == |GraphOf(steps)[s] - {}| {
      DistinctCount(steps[s].needs);
      assert GraphOf(steps)[s] - {} == GraphOf(steps)[s];
    }
  }

  /** The edges of `order[..i]` are good and listed, as are those of `order[i]` into `seen`. */
  ghost predicate Scanned(g: Graph, order: seq<StepId>, i: nat, seen: seq<StepId>, outgoing: map<StepId, seq<StepId>>) {
    && i <= |order| && (seen != [] ==> i < |order|)
    && outgoing.Keys == g.Keys
    && (forall s, d | s in g && d in g[s] && s in order[..i] :: GoodEdge(g, s, d))
    && (forall d | d in seen :: GoodEdge(g, order[i], d))
    && (forall d | d in g :: ListedSoFar(g, order, i, seen, d, outgoing[d]))
  }

  ghost predicate ListedSoFar(g: Graph, order: seq<StepId>, i: nat, seen: seq<StepId>, d: StepId, list: seq<StepId>)
    requires i <= |order| && (seen != [] ==> i < |order|)
  {
    && Ascends(list)
    && forall s :: s in list <==> s in g && d in g[s] && (s in order[..i] || (d in seen && s == order[i]))
  }

  lemma ScanStart(g: Graph, order: seq<StepId>, outgoing: map<StepId, seq<StepId>>)
    requires outgoing.Keys == g.Keys && forall d | d in g :: outgoing[d] == []
    ensures Scanned(g, order, 0, [], outgoing)
  {
  }

  lemma ScanEdge(g: Graph, order: seq<StepId>, i: nat, needs: seq<StepId>, k: nat, outgoing: map<StepId, seq<StepId>>)
    requires k < |needs| && Scanned(g, order, i, needs[..k], outgoing)
    requires i < |order| && Ascends(order) && order[i] in g
    requires Ascends(needs) && Elements(needs) == g[order[i]]
    requires GoodEdge(g, order[i], needs[k])
    ensures Scanned(g, order, i, needs[..k + 1], outgoing[needs[k] := outgoing[needs[k]] + [order[i]]])
  {
    var s, d := order[i], needs[k];
    var before, after := needs[..k], needs[..k + 1];
    assert d in Elements(needs);
    assert after == before + [d];
    assert d !in before;
    var list := outgoing[d];
    assert ListedSoFar(g, order, i, before, d, list);
    forall j | 0 <= j < |list| ensures list[j] < s {
      assert list[j] in list;
      assert list[j] in order[..i];
    }
    assert ListedSoFar(g, order, i, after, d, list + [s]);
    forall e | e in g && e != d ensures ListedSoFar(g, order, i, after, e, outgoing[e]) {
      assert ListedSoFar(g, order, i, before, e, outgoing[e]);
    }
  }

  lemma ScanDone(g: Graph, order: seq<StepId>, outgoing: map<StepId, seq<StepId>>)
    requires Elements(order) == g.Keys && Scanned(g, order, |order|, [], outgoing)
    ensures Closed(g) && SelfFree(g) && Lists(g, outgoing)
  {
    assert order[..|order|] == order;
    forall s, d | s in g && d in g[s] ensures d in g && d != s {
      assert s in Elements(order);
      assert GoodEdge(g, s, d);
    }
    forall d | d in g ensures ListsSuccessors(g, d, outgoing[d]) {
      assert ListedSoFar(g, order, |order|, [], d, outgoing[d]);
      forall s ensures s in outgoing[d] <==> s in Successors(g, d) {
        assert s in g ==> s in Elements(order);
      }
    }
  }

  lemma BadEdgeReported(g: Graph, order: seq<StepId>, i: nat, needs: seq<StepId>, k: nat,
                        outgoing: map<StepId, seq<StepId>>)
    requires k < |needs| && Scanned(g, order, i, needs[..k], outgoing)
    requires i < |order| && Ascends(order) && Elements(order) == g.Keys && order[i] in g
    requires Ascends(needs) && Elements(needs) == g[order[i]]
    requires !GoodEdge(g, order[i], needs[k])
    ensures EdgeFault(g, EdgeError(g, order[i], needs[k])) && !(Closed(g) && SelfFree(g))
  {
    var s, d := order[i], needs[k];
    assert d in Elements(needs);
    forall s', d' | s' in g && d' in g[s'] && s' < s ensures GoodEdge(g, s', d') {
      assert s' in Elements(order);
      var j :| 0 <= j < |order| && order[j] == s';
      assert j < i;
      assert order[..i][j] == s';
    }
    forall d' | d' in g[s] && d' < d ensures GoodEdge(g, s, d') {
      assert d' in Elements(needs);
      var j :| 0 <= j < |needs| && needs[j] == d';
      assert needs[..k][j] == d';
    }
    assert FirstBadEdge(g, s, d);
  }

  /** What Kahn's loop keeps: a least-first order, the steps it has made ready, and the counters of
      what each step still waits for. */
  ghost predicate Ordered(g: Graph, order: seq<StepId>, ready: set<StepId>, indegree: map<StepId, nat>) {
    Greedy(g, order) && ready == Ready(g, Elements(order)) && Counts(g, Elements(order), indegree)
  }

  /** Kahn's loop over in-place counters and a least-first ready set. */
  method StableOrder(ghost g: Graph, initial: map<StepId, nat>, outgoing: map<StepId, seq<StepId>>)
    returns (order: seq<StepId>, indegree: map<StepId, nat>)
    requires Counts(g, {}, initial) && Lists(g, outgoing)
    ensures Exhausted(g, order) && Counts(g, Elements(order), indegree)
  {
    indegree := initial;
    order := [];
    var ready := set s | s in indegree && indegree[s] == 0;
    InitiallyOrdered(g, indegree);
    while ready != {}
      invariant Ordered(g, order, ready, indegree)
      decreases |g| - |order|
    {
      order, ready, indegree := TakeStep(g, order, ready, indegree, outgoing);
    }
  }

  /** Take the least ready step and release what waits for it. */
  method TakeStep(ghost g: Graph, order: seq<StepId>, ready: set<StepId>, indegree: map<StepId, nat>,
                  outgoing: map<StepId, seq<StepId>>)
    returns (order': seq<StepId>, ready': set<StepId>, indegree': map<StepId, nat>)
    requires Ordered(g, order, ready, indegree) && ready != {} && Lists(g, outgoing)
    ensures Ordered(g, order', ready', indegree') && |order| < |order'| <= |g|
    ensures order' == order + [Least(ready)]
  {
    var step := Least(ready);
    TakeLeast(g, order);
    ghost var done := Elements(order);
    order' := order + [step];
    indegree', ready' := ReleaseSuccessors(g, done, step, outgoing, indegree, ready - {step});
    ReadyAfter(g, done, step);
  }

  /** Everything taken was taken after all it needs. */
  ghost predicate DownClosed(g: Graph, done: set<StepId>) {
    forall s | s in g && s in done :: g[s] <= done
  }

  lemma InitiallyOrdered(g: Graph, indegree: map<StepId, nat>)
    requires Counts(g, {}, indegree)
    ensures Ordered(g, [], (set s | s in indegree && indegree[s] == 0), indegree)
  {
    InitiallyReady(g, indegree);
    assert Elements<StepId>([]) == {};
  }

  lemma InitiallyReady(g: Graph, indegree: map<StepId, nat>)
    requires Counts(g, {}, indegree)
    ensures (set s | s in indegree && indegree[s] == 0) == Ready(g, {})
  {
    forall s | s in g ensures indegree[s] == 0 <==> s in Ready(g, {}) {
      assert CountAt(g, {}, indegree, s);
      ZeroLeft(g[s], {});
    }
  }

  lemma TakeLeast(g: Graph, order: seq<StepId>)
    requires Greedy(g, order) && Ready(g, Elements(order)) != {}
    ensures var longer := order + [Least(Ready(g, Elements(order)))];
      Greedy(g, longer) && Elements(longer) == Elements(order) + {Least(Ready(g, Elements(order)))} && |longer| <= |g|
    ensures DownClosed(g, Elements(order))
  {
    forall s | s in g && s in Elements(order) ensures g[s] <= Elements(order) {
      GreedySound(g, order);
      var i :| 0 <= i < |order| && order[i] == s;
      assert g[s] <= Elements(order[..i]) <= Elements(order);
    }
    var step := Least(Ready(g, Elements(order)));
    GreedyExtend(g, order);
    ElementsAppend(order, step);
    GreedySound(g, order + [step]);
    DistinctCount(order + [step]);
    SubsetCount(Elements(order + [step]), g.Keys);
  }

  lemma ReadyAfter(g: Graph, done: set<StepId>, step: StepId)
    requires step in Ready(g, done) && DownClosed(g, done)
    ensures Ready(g, done + {step}) == Ready(g, done) - {step} + Unlocked(g, done + {step}, Successors(g, step))
  {
    forall s | s in g && step !in g[s] ensures g[s] <= done + {step} <==> g[s] <= done {
      assert forall x | x in g[s] :: x in done + {step} <==> x in done;
    }
    assert forall s | s in Successors(g, step) :: s !in done && s != step;
  }

  method OrderSteps<J>(steps: map<StepId, StepDefinition<J>>) returns (r: Result<seq<StepId>, DefinitionError>)
    requires forall s | s in steps :: Ascends(steps[s].needs)
    ensures r.Ok? <==> Sound(GraphOf(steps))
    ensures r.Ok? ==> Exhausted(GraphOf(steps), r.value) && Elements(r.value) == steps.Keys
    ensures r.Err? ==> GraphFault(GraphOf(steps), r.error)
  {
    ghost var g := GraphOf(steps);
    var edges := CountEdges(g, steps);
    if edges.Err? {
      return Err(edges.error);
    }
    var order, indegree := StableOrder(g, edges.value.0, edges.value.1);
    CompleteIffAcyclic(g, order);
    assert g.Keys == steps.Keys && |g.Keys| == |steps.Keys|;
    if |order| != |steps| {
      var stuck := Ascending(set s | s in indegree && indegree[s] > 0);
      StuckIsCycleFault(g, order, indegree, stuck);
      return Err(CycleAmong(stuck));
    }
    return Ok(order);
  }

  method Compile<J>(id: Text, version: Text, specs: seq<StepSpec<J>>)
    returns (r: Result<WorkflowDefinition<J>, DefinitionError>)
    ensures r.Ok? <==> Compilable(id, version, specs)
    ensures r.Ok? ==> IsCompilation(id, version, specs, r.value)
    ensures r.Err? ==> IsRefusal(id, version, specs, r.error)
  {
    if id.Malformed? {
      return Err(InvalidIdentifier(WorkflowIdentifier));
    }
    if version.Malformed? {
      return Err(InvalidIdentifier(VersionIdentifier));
    }
    if specs == [] {
      return Err(NoSteps);
    }
    var steps := Normalize(specs);
    if steps.Err? {
      return Err(steps.error);
    }
    NormalizedSteps(specs);
    var order := OrderSteps(steps.value);
    if order.Err? {
      return Err(order.error);
    }
    return Ok(WorkflowDefinition(id.id, version.id, steps.value, order.value));
  }

  lemma NormalizedSteps<J>(specs: seq<StepSpec<J>>)
    requires specs != [] && Clean(specs)
    ensures Normalizes(specs, StepsOf(specs)) && StepsOf(specs).Keys != {}
    ensures forall s | s in StepsOf(specs) :: StepsOf(specs)[s].id == s && Ascends(StepsOf(specs)[s].needs)
  {
    NormalizesStepsOf(specs);
    assert specs[0].id.id in StepsOf(specs);
    forall s | s in StepsOf(specs) ensures StepsOf(specs)[s].id == s && Ascends(StepsOf(specs)[s].needs) {
      var i :| 0 <= i < |specs| && specs[i].id == Named(s);
      assert StepsOf(specs)[specs[i].id.id] == StepOf(specs[i]);
    }
  }

  lemma CompleteIffAcyclic(g: Graph, order: seq<StepId>)
    requires Closed(g) && Exhausted(g, order)
    ensures |order| == |g| <==> Elements(order) == g.Keys
    ensures |order| == |g| <==> Acyclic(g)
  {
    ExhaustedIffAcyclic(g, order);
    GreedySound(g, order);
    DistinctCount(order);
    SubsetCount(Elements(order), g.Keys);
    assert |g.Keys| == |g|;
  }

  lemma StuckIsCycleFault(g: Graph, order: seq<StepId>, indegree: map<StepId, nat>, steps: seq<StepId>)
    requires Closed(g) && Exhausted(g, order) && Elements(order) != g.Keys && Counts(g, Elements(order), indegree)
    requires Ascends(steps) && Elements(steps) == set s | s in indegree && indegree[s] > 0
    ensures CycleFault(g, CycleAmong(steps))
  {
    StuckIsLeftover(g, order, indegree);
    GreedySound(g, order);
    LeftoverIsGreatestBlocked(g, order);
    if steps == [] {
      EmptyDifference(g.Keys, Elements(order));
    }
  }

  lemma StuckIsLeftover(g: Graph, order: seq<StepId>, indegree: map<StepId, nat>)
    requires Exhausted(g, order) && Counts(g, Elements(order), indegree)
    ensures (set s | s in indegree && indegree[s] > 0) == g.Keys - Elements(order)
  {
    forall s | s in g ensures indegree[s] > 0 <==> s !in Elements(order) {
      assert CountAt(g, Elements(order), indegree, s);
      ZeroLeft(g[s], Elements(order));
      TakenIffUnblocked(g, order, s);
    }
  }

  lemma TakenIffUnblocked(g: Graph, order: seq<StepId>, s: StepId)
    requires Exhausted(g, order) && s in g
    ensures s in Elements(order) <==> g[s] <= Elements(order)
  {
    GreedySound(g, order);
    assert s !in Ready(g, Elements(order));
    if s in Elements(order) {
      var i :| 0 <= i < |order| && order[i] == s;
      assert g[s] <= Elements(order[..i]) <= Elements(order);
    }
  }

  // ---------------------------------------------------------------------------------------------
  // What a compiled definition promises
  // ---------------------------------------------------------------------------------------------

  /** The reported order respects the dependencies, and no order that does comes lexicographically before it. */
  lemma StableOrderIsLeast<J>(d: WorkflowDefinition<J>, other: seq<StepId>)
    requires Valid(d) && Topological(GraphOf(d.steps), other)
    ensures Topological(GraphOf(d.steps), d.topologicalOrder)
    ensures LexLeq(d.topologicalOrder, other)
  {
    LeastTopologicalOrder(GraphOf(d.steps), d.topologicalOrder, other);
  }

  /** A compilation is unique, so the compiler's answer is determined by what was authored. */
  lemma CompilationUnique<J>(id: Text, version: Text, specs: seq<StepSpec<J>>,
                             d: WorkflowDefinition<J>, e: WorkflowDefinition<J>)
    requires IsCompilation(id, version, specs, d) && IsCompilation(id, version, specs, e)
    ensures d == e
  {
    NormalFormUnique(specs, d.steps);
    NormalFormUnique(specs, e.steps);
    ExhaustedUnique(GraphOf(d.steps), d.topologicalOrder, e.topologicalOrder);
  }
}
