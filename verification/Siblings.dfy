/** Steps of one phase are meant to be independent of each other: exactly when they are. */
module Siblings {
  import opened Collections
  import opened Graphs
  import opened Definition
  import opened Authoring
  import opened Scheduler
  import opened Independence
  import opened Phases

  /** In every run, under every bound, neither of two steps of one phase waits for the other. */
  ghost predicate AlwaysIndependent<J, O(!new), E(!new)>(phases: seq<Phase<J>>, g: Graph) {
    forall k, a, b | 0 <= k < |phases| && 0 <= a < |phases[k]| && 0 <= b < |phases[k]| && a != b ::
      NeverMadeToWait<O, E>(g, phases[k][a].id, phases[k][b].id)
  }

  ghost predicate NeverMadeToWait<O(!new), E(!new)>(g: Graph, first: Text, second: Text) {
    first.Named? && second.Named? ==> !AlwaysWaits<O, E>(g, first.id, second.id)
  }

  /** No step is among the direct or transitive dependencies of another of its phase. */
  ghost predicate Unlinked<J>(phases: seq<Phase<J>>, g: Graph) {
    forall k, a, b | 0 <= k < |phases| && 0 <= a < |phases[k]| && 0 <= b < |phases[k]| && a != b ::
      Apart(g, phases[k][a].id, phases[k][b].id)
  }

  ghost predicate Apart(g: Graph, first: Text, second: Text) {
    first.Named? && second.Named? ==> !Ancestor(g, first.id, second.id)
  }

  /** For one pair of steps: being apart is never being made to wait. */
  ghost predicate PairIndependent<O(!new), E(!new)>(g: Graph, first: Text, second: Text) {
    NeverMadeToWait<O, E>(g, first, second) <==> Apart(g, first, second)
  }

  lemma ApartNeverWaits<J, O(!new), E(!new)>(phases: seq<Phase<J>>, d: WorkflowDefinition<J>, k: nat, a: nat, b: nat,
                                             o: O)
    requires Valid(d) && Phased(phases, GraphOf(d.steps)) && k < |phases| && a < |phases[k]| && b < |phases[k]|
    ensures PairIndependent<O, E>(GraphOf(d.steps), phases[k][a].id, phases[k][b].id)
  {
    var g := GraphOf(d.steps);
    assert PhasedAt(phases, g, k, a) && PhasedAt(phases, g, k, b);
    WaitsIffAncestor<O, E>(g, d.topologicalOrder, phases[k][a].id.id, phases[k][b].id.id, o);
  }

  lemma PairsDecide<J, O(!new), E(!new)>(phases: seq<Phase<J>>, g: Graph)
    requires forall k, a, b | 0 <= k < |phases| && 0 <= a < |phases[k]| && 0 <= b < |phases[k]| ::
      PairIndependent<O, E>(g, phases[k][a].id, phases[k][b].id)
    ensures AlwaysIndependent<J, O, E>(phases, g) <==> Unlinked(phases, g)
  {
  }

  /** For every file that compiles, the steps of each phase are independent exactly when dependencies do not
      link them. */
  lemma IndependentIffUnlinked<J, O(!new), E(!new)>(id: Text, version: Text, phases: seq<Phase<J>>,
                                                    d: WorkflowDefinition<J>, o: O)
    requires IsCompilation(id, version, Flattened(phases, |phases|), d)
    ensures AlwaysIndependent<J, O, E>(phases, GraphOf(d.steps)) <==> Unlinked(phases, GraphOf(d.steps))
  {
    CompiledPhases(id, version, phases, d);
    forall k, a, b | 0 <= k < |phases| && 0 <= a < |phases[k]| && 0 <= b < |phases[k]|
      ensures PairIndependent<O, E>(GraphOf(d.steps), phases[k][a].id, phases[k][b].id)
    {
      ApartNeverWaits<J, O, E>(phases, d, k, a, b, o);
    }
    PairsDecide<J, O, E>(phases, GraphOf(d.steps));
  }

  // ---------------------------------------------------------------------------------------------
  // Needs that look back
  // ---------------------------------------------------------------------------------------------

  ghost predicate HasStep<J>(phases: seq<Phase<J>>, j: int, a: int, x: StepId) {
    0 <= j < |phases| && 0 <= a < |phases[j]| && phases[j][a].id == Named(x)
  }

  ghost predicate Before<J>(phases: seq<Phase<J>>, k: nat, x: StepId) {
    exists j, a :: j < k && HasStep(phases, j, a, x)
  }

  /** Every step's own needs name steps of earlier phases. */
  ghost predicate NeedsLookBack<J>(phases: seq<Phase<J>>) {
    forall k, b | 0 <= k < |phases| && 0 <= b < |phases[k]| :: LooksBack(phases, k, phases[k][b].needs)
  }

  ghost predicate LooksBack<J>(phases: seq<Phase<J>>, k: nat, needs: seq<Text>) {
    forall need | need in needs && need.Named? :: Before(phases, k, need.id)
  }

  lemma NeededIsBefore<J>(phases: seq<Phase<J>>, g: Graph, k: nat, b: nat, y: StepId)
    requires Phased(phases, g) && NeedsLookBack(phases) && k < |phases| && b < |phases[k]|
    requires phases[k][b].id.Named? && phases[k][b].id.id in g && y in g[phases[k][b].id.id]
    ensures Before(phases, k, y)
  {
    assert PhasedAt(phases, g, k, b);
    var needs := phases[k][b].needs;
    if Named(y) in needs {
      assert LooksBack(phases, k, needs);
    } else {
      assert Named(y) in Previous(phases, k);
      var c :| 0 <= c < |Previous(phases, k)| && Previous(phases, k)[c] == Named(y);
      assert HasStep(phases, k - 1, c, y);
    }
  }

  /** Walking along dependencies only leads to earlier phases. */
  lemma {:induction false} WalkGoesBack<J>(phases: seq<Phase<J>>, g: Graph, k: nat, b: nat, p: seq<StepId>)
    requires Phased(phases, g) && NeedsLookBack(phases) && k < |phases| && b < |phases[k]|
    requires Walk(g, p) && |p| > 1 && phases[k][b].id == Named(p[0])
    ensures Before(phases, k, p[|p| - 1])
    decreases |p|
  {
    assert p[1] in g[p[0]];
    NeededIsBefore(phases, g, k, b, p[1]);
    if |p| > 2 {
      var j, a :| j < k && HasStep(phases, j, a, p[1]);
      assert p[1..][0] == p[1] && Walk(g, p[1..]);
      WalkGoesBack(phases, g, j, a, p[1..]);
      var j', a' :| j' < j && HasStep(phases, j', a', p[1..][|p| - 2]);
    }
  }

  lemma CleanParts<J>(before: seq<StepSpec<J>>, entries: seq<StepSpec<J>>)
    requires Clean(before + entries)
    ensures Clean(before)
    ensures forall i, b | 0 <= i < |before| && 0 <= b < |entries| :: before[i].id != entries[b].id
  {
    var specs := before + entries;
    forall i | 0 <= i < |before| ensures before[i].id.Named? && CleanNeeds(before[i].needs) {
      assert specs[i] == before[i];
    }
    forall i, j | 0 <= i < j < |before| ensures before[i].id != before[j].id {
      assert specs[i] == before[i] && specs[j] == before[j];
    }
    forall i, b | 0 <= i < |before| && 0 <= b < |entries| ensures before[i].id != entries[b].id {
      assert specs[i] == before[i] && specs[|before| + b] == entries[b];
    }
  }

  lemma CleanBefore<J>(phases: seq<Phase<J>>, n: nat)
    requires n < |phases| && Clean(Flattened(phases, n + 1))
    ensures Clean(Flattened(phases, n))
  {
    CleanParts(Flattened(phases, n), PhaseEntries(Previous(phases, n), phases[n]));
  }

  lemma {:induction false} CleanPrefix<J>(phases: seq<Phase<J>>, k: nat, n: nat)
    requires k <= n <= |phases| && Clean(Flattened(phases, n))
    ensures Clean(Flattened(phases, k))
    decreases n
  {
    if k < n {
      CleanBefore(phases, n - 1);
      CleanPrefix(phases, k, n - 1);
    }
  }

  lemma PhasesShareNoStep<J>(phases: seq<Phase<J>>, j: nat, a: nat, k: nat, b: nat)
    requires Clean(Flattened(phases, |phases|)) && j < k < |phases| && a < |phases[j]| && b < |phases[k]|
    ensures phases[j][a].id != phases[k][b].id
  {
    var entries := PhaseEntries(Previous(phases, k), phases[k]);
    CleanPrefix(phases, k + 1, |phases|);
    CleanParts(Flattened(phases, k), entries);
    var i := EntryPresent(phases, k, j, a);
    assert Flattened(phases, k)[i].id != entries[b].id;
  }

  /** A step belongs to one phase only. */
  lemma OnePhaseEach<J>(phases: seq<Phase<J>>, k: nat, b: nat, x: StepId)
    requires Clean(Flattened(phases, |phases|)) && k < |phases| && b < |phases[k]| && phases[k][b].id == Named(x)
    ensures !Before(phases, k, x)
  {
    forall j, a | 0 <= j < k && HasStep(phases, j, a, x) ensures false {
      PhasesShareNoStep(phases, j, a, k, b);
    }
  }

  lemma LookingBackUnlinks<J>(phases: seq<Phase<J>>, g: Graph)
    requires Phased(phases, g) && NeedsLookBack(phases) && Clean(Flattened(phases, |phases|))
    ensures Unlinked(phases, g)
  {
    forall k, a, b | 0 <= k < |phases| && 0 <= a < |phases[k]| && 0 <= b < |phases[k]| && a != b
      ensures Apart(g, phases[k][a].id, phases[k][b].id)
    {
      var first, second := phases[k][a].id, phases[k][b].id;
      if first.Named? && second.Named? && Ancestor(g, first.id, second.id) {
        var p: seq<StepId> :| Walk(g, p) && |p| > 1 && p[0] == second.id && p[|p| - 1] == first.id;
        WalkGoesBack(phases, g, k, b, p);
        OnePhaseEach(phases, k, a, first.id);
      }
    }
  }

  /** Where own needs only name earlier phases, and so in every file without any, the steps of a phase are
      independent, whether or not phases are empty. */
  lemma LookingBackIsEnough<J, O(!new), E(!new)>(id: Text, version: Text, phases: seq<Phase<J>>,
                                                 d: WorkflowDefinition<J>, o: O)
    requires IsCompilation(id, version, Flattened(phases, |phases|), d) && NeedsLookBack(phases)
    ensures AlwaysIndependent<J, O, E>(phases, GraphOf(d.steps))
  {
    CompiledPhases(id, version, phases, d);
    LookingBackUnlinks(phases, GraphOf(d.steps));
    IndependentIffUnlinked<J, O, E>(id, version, phases, d, o);
  }

  // ---------------------------------------------------------------------------------------------
  // Without gaps
  // ---------------------------------------------------------------------------------------------

  /** Some step names another of its own phase among its needs. */
  ghost predicate NeedsSibling<J>(phases: seq<Phase<J>>) {
    exists k, a, b :: SiblingNeeded(phases, k, a, b)
  }

  ghost predicate SiblingNeeded<J>(phases: seq<Phase<J>>, k: int, a: int, b: int) {
    && 0 <= k < |phases| && 0 <= a < |phases[k]| && 0 <= b < |phases[k]| && a != b
    && phases[k][a].id in phases[k][b].needs
  }

  lemma CycleClosed(g: Graph, x: StepId, y: StepId)
    requires Ancestor(g, x, y) && x in g && y in g[x]
    ensures !Acyclic(g)
  {
    var p: seq<StepId> :| Walk(g, p) && |p| > 1 && p[0] == y && p[|p| - 1] == x;
    assert Cycle(g, [x] + p);
  }

  /** A need that names a later phase would close a cycle, since the later phase depends on this one. */
  lemma NoNeedAhead<J>(phases: seq<Phase<J>>, g: Graph, k: nat, b: nat, m: nat, c: nat)
    requires Phased(phases, g) && Linked(phases, g) && k < m < |phases| && b < |phases[k]| && c < |phases[m]|
    ensures phases[m][c].id in phases[k][b].needs ==> !Acyclic(g)
  {
    assert PhasedAt(phases, g, k, b) && PhasedAt(phases, g, m, c);
    if phases[m][c].id in phases[k][b].needs {
      assert LinkedAt(g, phases[k][b].id, phases[m][c].id);
      CycleClosed(g, phases[k][b].id.id, phases[m][c].id.id);
    }
  }

  lemma NotNeededBySibling<J>(phases: seq<Phase<J>>, k: nat, b: nat, c: nat)
    requires !NeedsSibling(phases) && k < |phases| && b < |phases[k]| && c < |phases[k]|
    requires phases[k][c].id in phases[k][b].needs
    ensures c == b
  {
    assert c != b ==> SiblingNeeded(phases, k, c, b);
  }

  lemma {:induction false} EntryOrigin<J>(phases: seq<Phase<J>>, n: nat, i: nat) returns (m: nat, c: nat)
    requires n <= |phases| && i < |Flattened(phases, n)|
    ensures m < n && c < |phases[m]| && phases[m][c].id == Flattened(phases, n)[i].id
  {
    var before := |Flattened(phases, n - 1)|;
    if i < before {
      m, c := EntryOrigin(phases, n - 1, i);
    } else {
      m, c := n - 1, i - before;
    }
  }

  lemma NeedHasPhase<J>(id: Text, version: Text, phases: seq<Phase<J>>, d: WorkflowDefinition<J>, k: nat, b: nat,
                        y: StepId)
    returns (m: nat, c: nat)
    requires IsCompilation(id, version, Flattened(phases, |phases|), d)
    requires k < |phases| && b < |phases[k]| && Named(y) in phases[k][b].needs
    ensures m < |phases| && c < |phases[m]| && phases[m][c].id == Named(y) && (m != k || c != b)
  {
    var g := GraphOf(d.steps);
    CompiledPhases(id, version, phases, d);
    assert PhasedAt(phases, g, k, b);
    assert y in g[phases[k][b].id.id];
    assert y in d.steps;
    var entries := Flattened(phases, |phases|);
    var i :| 0 <= i < |entries| && entries[i].id == Named(y);
    m, c := EntryOrigin(phases, |phases|, i);
  }

  lemma NoSiblingLooksBack<J>(id: Text, version: Text, phases: seq<Phase<J>>, d: WorkflowDefinition<J>, k: nat, b: nat)
    requires IsCompilation(id, version, Flattened(phases, |phases|), d)
    requires Linked(phases, GraphOf(d.steps)) && !NeedsSibling(phases) && k < |phases| && b < |phases[k]|
    ensures LooksBack(phases, k, phases[k][b].needs)
  {
    var g := GraphOf(d.steps);
    CompiledPhases(id, version, phases, d);
    ExhaustedIffAcyclic(g, d.topologicalOrder);
    forall need | need in phases[k][b].needs && need.Named? ensures Before(phases, k, need.id) {
      var m, c := NeedHasPhase(id, version, phases, d, k, b, need.id);
      if m > k {
        NoNeedAhead(phases, g, k, b, m, c);
      } else if m == k {
        NotNeededBySibling(phases, k, b, c);
      } else {
        assert HasStep(phases, m, c, need.id);
      }
    }
  }

  lemma SiblingNeedLinks<J>(phases: seq<Phase<J>>, g: Graph, k: nat, a: nat, b: nat)
    requires Phased(phases, g) && Closed(g) && SiblingNeeded(phases, k, a, b)
    ensures !Unlinked(phases, g)
  {
    assert PhasedAt(phases, g, k, a) && PhasedAt(phases, g, k, b);
    var first, second := phases[k][a].id, phases[k][b].id;
    var p := [second.id, first.id];
    assert first.id in g[second.id] && Walk(g, p);
    assert p[0] == second.id && p[|p| - 1] == first.id && Ancestor(g, first.id, second.id);
    assert !Apart(g, first, second);
  }

  /** In a file that compiles and has no empty phase between two others, the steps of each phase are
      independent exactly when no step names another of its own phase among its needs. */
  lemma IndependentIffNoSiblingNeeds<J, O(!new), E(!new)>(id: Text, version: Text, phases: seq<Phase<J>>,
                                                          d: WorkflowDefinition<J>, o: O)
    requires IsCompilation(id, version, Flattened(phases, |phases|), d) && NoGap(phases)
    ensures AlwaysIndependent<J, O, E>(phases, GraphOf(d.steps)) <==> !NeedsSibling(phases)
  {
    var g := GraphOf(d.steps);
    CompiledPhases(id, version, phases, d);
    if NeedsSibling(phases) {
      var k, a, b :| SiblingNeeded(phases, k, a, b);
      SiblingNeedLinks(phases, g, k, a, b);
      IndependentIffUnlinked<J, O, E>(id, version, phases, d, o);
    } else {
      NoGapLinks<J, O, E>(id, version, phases, d, o);
      forall k, b | 0 <= k < |phases| && 0 <= b < |phases[k]| ensures LooksBack(phases, k, phases[k][b].needs) {
        NoSiblingLooksBack(id, version, phases, d, k, b);
      }
      LookingBackIsEnough<J, O, E>(id, version, phases, d, o);
    }
  }

  lemma NoGapLinks<J, O(!new), E(!new)>(id: Text, version: Text, phases: seq<Phase<J>>, d: WorkflowDefinition<J>, o: O)
    requires IsCompilation(id, version, Flattened(phases, |phases|), d) && NoGap(phases)
    ensures Linked(phases, GraphOf(d.steps))
  {
    var g := GraphOf(d.steps);
    forall max: nat, states: seq<State<O, E>>, events: seq<Event<O, E>>, i: nat
      | Run(g, max, states, events) && i < |states|
      ensures BarrierHolds(phases, states[i])
    {
      PhasesAreBarriers(id, version, phases, d, max, states, events, i);
    }
    assert AlwaysBarriers<J, O, E>(phases, g);
    BarriersIffLinked<J, O, E>(id, version, phases, d, o);
  }

  // ---------------------------------------------------------------------------------------------
  // A phase with an order inside
  // ---------------------------------------------------------------------------------------------

  /** One phase of two steps, the second of which needs the first. */
  function SiblingFile<J>(job: J): seq<Phase<J>> {
    [[StepSpec(Named(0), [], job), StepSpec(Named(1), [Named(0)], job)]]
  }

  lemma SiblingFileFlattens<J>(job: J)
    ensures Flattened(SiblingFile(job), 1) == Chained(SiblingFile(job)[0])
  {
    var phases := SiblingFile(job);
    assert Flattened(phases, 0) == [] && Previous(phases, 0) == [];
    forall i | 0 <= i < 2 ensures Phases.After([], phases[0][i]) == ChainLink(phases[0], i) {
      assert phases[0][i].needs + [] == phases[0][i].needs;
    }
    assert PhaseEntries([], phases[0]) == Chained(phases[0]);
  }

  lemma SiblingsAreNamed<J>(job: J)
    ensures SiblingFile(job)[0] != [] && DistinctlyNamed(SiblingFile(job)[0])
  {
  }

  lemma SiblingFileCompiles<J>(job: J)
    ensures Compilable(Named(0), Named(0), Flattened(SiblingFile(job), |SiblingFile(job)|))
  {
    SiblingFileFlattens(job);
    SiblingsAreNamed(job);
    PipelineCompilesIffDistinctlyNamed(Named(0), Named(0), SiblingFile(job)[0]);
  }

  /** It compiles, and then one of the two steps waits for the other in every run. */
  lemma SiblingFileFails<J, O(!new), E(!new)>(job: J, d: WorkflowDefinition<J>, o: O)
    ensures Compilable(Named(0), Named(0), Flattened(SiblingFile(job), |SiblingFile(job)|))
    ensures IsCompilation(Named(0), Named(0), Flattened(SiblingFile(job), |SiblingFile(job)|), d) ==>
      !AlwaysIndependent<J, O, E>(SiblingFile(job), GraphOf(d.steps))
  {
    var phases := SiblingFile(job);
    SiblingFileCompiles(job);
    if IsCompilation(Named(0), Named(0), Flattened(phases, |phases|), d) {
      assert SiblingNeeded(phases, 0, 0, 1);
      IndependentIffNoSiblingNeeds<J, O, E>(Named(0), Named(0), phases, d, o);
    }
  }
}
