/** Phase-oriented configuration: each phase is meant to run after the one before it. */
module Phases {
  import opened Collections
  import opened Graphs
  import opened Definition
  import opened Scheduler
  import opened Independence

  type Phase<J> = seq<StepSpec<J>>

  function PhaseIds<J>(phase: Phase<J>): (r: seq<Text>)
    ensures |r| == |phase| && forall i | 0 <= i < |r| :: r[i] == phase[i].id
  {
    seq(|phase|, i requires 0 <= i < |phase| => phase[i].id)
  }

  /** A step of a phase keeps its own needs and adds every step of the phase before. */
  function After<J>(previous: seq<Text>, step: StepSpec<J>): StepSpec<J> {
    step.(needs := step.needs + previous)
  }

  function PhaseEntries<J>(previous: seq<Text>, phase: Phase<J>): (r: seq<StepSpec<J>>)
    ensures |r| == |phase| && forall i | 0 <= i < |r| :: r[i] == After(previous, phase[i])
  {
    seq(|phase|, i requires 0 <= i < |phase| => After(previous, phase[i]))
  }

  function Previous<J>(phases: seq<Phase<J>>, k: nat): seq<Text>
    requires k <= |phases|
  {
    if k == 0 then [] else PhaseIds(phases[k - 1])
  }

  function Flattened<J>(phases: seq<Phase<J>>, n: nat): seq<StepSpec<J>>
    requires n <= |phases|
  {
    if n == 0 then [] else Flattened(phases, n - 1) + PhaseEntries(Previous(phases, n - 1), phases[n - 1])
  }

  method FlattenPhases<J>(phases: seq<Phase<J>>) returns (entries: seq<StepSpec<J>>)
    ensures entries == Flattened(phases, |phases|)
  {
    entries := [];
    var previousPhase: seq<Text> := [];
    for k := 0 to |phases|
      invariant entries == Flattened(phases, k) && previousPhase == Previous(phases, k)
    {
      var phase := phases[k];
      var thisPhase: seq<Text> := [];
      ghost var before := entries;
      for i := 0 to |phase|
        invariant thisPhase == PhaseIds(phase)[..i]
        invariant entries == before + PhaseEntries(previousPhase, phase)[..i]
      {
        assert PhaseEntries(previousPhase, phase)[i] == After(previousPhase, phase[i]);
        entries := entries + [phase[i].(needs := phase[i].needs + previousPhase)];
        thisPhase := thisPhase + [phase[i].id];
      }
      previousPhase := thisPhase;
    }
  }

  /** No empty phase lies between two phases that have steps. */
  ghost predicate NoGap<J>(phases: seq<Phase<J>>) {
    forall i, j, k | 0 <= i < j < k < |phases| && phases[i] != [] && phases[k] != [] :: phases[j] != []
  }

  /** Nothing of a later phase is dispatched before all of every earlier phase has outputs. */
  ghost predicate BarrierHolds<J, O, E>(phases: seq<Phase<J>>, s: State<O, E>) {
    forall j, k, a, b | 0 <= j < k < |phases| && 0 <= a < |phases[j]| && 0 <= b < |phases[k]| ::
      StepWaits(s, phases[j][a].id, phases[k][b].id)
  }

  ghost predicate StepWaits<O, E>(s: State<O, E>, earlier: Text, later: Text) {
    earlier.Named? && later.Named? && later.id in Dispatched(s) ==> earlier.id in s.outputs
  }

  lemma {:induction false} EntryPresent<J>(phases: seq<Phase<J>>, n: nat, k: nat, b: nat) returns (i: nat)
    requires k < n <= |phases| && b < |phases[k]|
    ensures i < |Flattened(phases, n)| && Flattened(phases, n)[i] == After(Previous(phases, k), phases[k][b])
  {
    if k == n - 1 {
      i := |Flattened(phases, n - 1)| + b;
    } else {
      i := EntryPresent(phases, n - 1, k, b);
    }
  }

  /** What the steps of a phase need in the compiled graph. */
  ghost predicate Phased<J>(phases: seq<Phase<J>>, g: Graph) {
    forall k, b | 0 <= k < |phases| && 0 <= b < |phases[k]| :: PhasedAt(phases, g, k, b)
  }

  ghost predicate PhasedAt<J>(phases: seq<Phase<J>>, g: Graph, k: nat, b: nat)
    requires k < |phases| && b < |phases[k]|
  {
    var step := phases[k][b];
    step.id.Named? && step.id.id in g && g[step.id.id] == Ids(step.needs + Previous(phases, k))
  }

  lemma CompiledPhases<J>(id: Text, version: Text, phases: seq<Phase<J>>, d: WorkflowDefinition<J>)
    requires IsCompilation(id, version, Flattened(phases, |phases|), d)
    ensures Phased(phases, GraphOf(d.steps))
  {
    var entries := Flattened(phases, |phases|);
    forall k, b | 0 <= k < |phases| && 0 <= b < |phases[k]| ensures PhasedAt(phases, GraphOf(d.steps), k, b) {
      var i := EntryPresent(phases, |phases|, k, b);
      assert d.steps[entries[i].id.id] == StepOf(entries[i]);
    }
  }

  /** Where no phase is empty, or only leading and trailing ones are, phases are barriers in every
      run of the scheduler, at every moment, under every concurrency bound. */
  lemma PhasesAreBarriers<J, O, E>(id: Text, version: Text, phases: seq<Phase<J>>, d: WorkflowDefinition<J>,
                                   max: nat, states: seq<State<O, E>>, events: seq<Event<O, E>>, i: nat)
    requires IsCompilation(id, version, Flattened(phases, |phases|), d) && NoGap(phases)
    requires Run(GraphOf(d.steps), max, states, events) && i < |states|
    ensures BarrierHolds(phases, states[i])
  {
    RunKeepsInv(GraphOf(d.steps), max, states, events, i);
    CompiledPhases(id, version, phases, d);
    EarlierPhasesDone(GraphOf(d.steps), phases, max, states[i]);
  }

  lemma EarlierPhasesDone<J, O, E>(g: Graph, phases: seq<Phase<J>>, max: nat, s: State<O, E>)
    requires Phased(phases, g) && NoGap(phases) && Inv(g, max, s)
    ensures BarrierHolds(phases, s)
  {
    forall j, k, a, b | 0 <= j < k < |phases| && 0 <= a < |phases[j]| && 0 <= b < |phases[k]|
      ensures StepWaits(s, phases[j][a].id, phases[k][b].id)
    {
      assert PhasedAt(phases, g, j, a) && PhasedAt(phases, g, k, b);
      if phases[k][b].id.id in Dispatched(s) {
        EarlierPhaseDone(g, phases, max, s, j, a, k, b);
      }
    }
  }

  lemma {:induction false} EarlierPhaseDone<J, O, E>(g: Graph, phases: seq<Phase<J>>, max: nat, s: State<O, E>,
                                                     j: nat, a: nat, k: nat, b: nat)
    requires Phased(phases, g) && NoGap(phases) && Inv(g, max, s)
    requires j < k < |phases| && a < |phases[j]| && b < |phases[k]|
    requires phases[j][a].id.Named? && phases[k][b].id.Named? && phases[k][b].id.id in Dispatched(s)
    ensures phases[j][a].id.id in s.outputs
  {
    // Step in between: any step of the phase just before `k`, or the goal itself.
    var c := if j == k - 1 then a else 0;
    assert phases[k - 1] != [];
    PhaseNeedsPrevious(phases, g, k, b, c);
    NeedsAreOutputs(g, max, s, phases[k][b].id.id, phases[k - 1][c].id.id);
    if j < k - 1 {
      EarlierPhaseDone(g, phases, max, s, j, a, k - 1, c);
    }
  }

  lemma PhaseNeedsPrevious<J>(phases: seq<Phase<J>>, g: Graph, k: nat, b: nat, c: nat)
    requires Phased(phases, g) && 0 < k < |phases| && b < |phases[k]| && c < |phases[k - 1]|
    ensures phases[k][b].id.Named? && phases[k - 1][c].id.Named? && phases[k][b].id.id in g
    ensures phases[k - 1][c].id.id in g[phases[k][b].id.id]
  {
    assert PhasedAt(phases, g, k, b) && PhasedAt(phases, g, k - 1, c);
    assert Previous(phases, k)[c] == phases[k - 1][c].id;
  }

  lemma NeedsAreOutputs<O, E>(g: Graph, max: nat, s: State<O, E>, x: StepId, needed: StepId)
    requires Inv(g, max, s) && x in Dispatched(s) && x in g && needed in g[x]
    ensures needed in s.outputs && needed in Dispatched(s)
  {
    var i :| 0 <= i < |s.calls| && Order(s.calls)[i] == x;
    assert CallSoundAt(g, s.outputs, s.calls, i);
    assert OneFate(s, needed);
  }

  // ---------------------------------------------------------------------------------------------
  // Exactly when phases are barriers
  // ---------------------------------------------------------------------------------------------

  ghost predicate AlwaysBarriers<J, O(!new), E(!new)>(phases: seq<Phase<J>>, g: Graph) {
    forall max: nat, states: seq<State<O, E>>, events: seq<Event<O, E>>, i: nat
      | Run(g, max, states, events) && i < |states| ::
      BarrierHolds(phases, states[i])
  }

  /** Each step reaches, through its dependencies, every step of every earlier phase. */
  ghost predicate Linked<J>(phases: seq<Phase<J>>, g: Graph) {
    forall j, k, a, b | 0 <= j < k < |phases| && 0 <= a < |phases[j]| && 0 <= b < |phases[k]| ::
      LinkedAt(g, phases[j][a].id, phases[k][b].id)
  }

  ghost predicate LinkedAt(g: Graph, earlier: Text, later: Text) {
    earlier.Named? && later.Named? ==> Ancestor(g, earlier.id, later.id)
  }

  /** For one pair of steps: being linked is being waited for. */
  ghost predicate PairWaits<O(!new), E(!new)>(g: Graph, earlier: Text, later: Text) {
    earlier.Named? && later.Named? && (LinkedAt(g, earlier, later) <==> AlwaysWaits<O, E>(g, earlier.id, later.id))
  }

  lemma LinkedWaits<J, O(!new), E(!new)>(phases: seq<Phase<J>>, d: WorkflowDefinition<J>, j: nat, k: nat, a: nat,
                                         b: nat, o: O)
    requires Valid(d) && Phased(phases, GraphOf(d.steps))
    requires j < k < |phases| && a < |phases[j]| && b < |phases[k]|
    ensures PairWaits<O, E>(GraphOf(d.steps), phases[j][a].id, phases[k][b].id)
  {
    assert PhasedAt(phases, GraphOf(d.steps), j, a) && PhasedAt(phases, GraphOf(d.steps), k, b);
    WaitsIffAncestor<O, E>(GraphOf(d.steps), d.topologicalOrder, phases[j][a].id.id, phases[k][b].id.id, o);
  }

  /** For every file that compiles, phases are barriers in every run exactly when dependencies link
      every later step to every earlier one. */
  lemma BarriersIffLinked<J, O(!new), E(!new)>(id: Text, version: Text, phases: seq<Phase<J>>,
                                               d: WorkflowDefinition<J>, o: O)
    requires IsCompilation(id, version, Flattened(phases, |phases|), d)
    ensures AlwaysBarriers<J, O, E>(phases, GraphOf(d.steps)) <==> Linked(phases, GraphOf(d.steps))
  {
    var g := GraphOf(d.steps);
    CompiledPhases(id, version, phases, d);
    forall j, k, a, b | 0 <= j < k < |phases| && 0 <= a < |phases[j]| && 0 <= b < |phases[k]|
      ensures PairWaits<O, E>(g, phases[j][a].id, phases[k][b].id)
    {
      LinkedWaits<J, O, E>(phases, d, j, k, a, b, o);
    }
    BarriersAreWaits<J, O, E>(phases, g);
  }

  lemma BarriersAreWaits<J, O(!new), E(!new)>(phases: seq<Phase<J>>, g: Graph)
    requires forall j, k, a, b | 0 <= j < k < |phases| && 0 <= a < |phases[j]| && 0 <= b < |phases[k]| ::
      PairWaits<O, E>(g, phases[j][a].id, phases[k][b].id)
    ensures AlwaysBarriers<J, O, E>(phases, g) <==> Linked(phases, g)
  {
    if AlwaysBarriers<J, O, E>(phases, g) {
      forall j, k, a, b | 0 <= j < k < |phases| && 0 <= a < |phases[j]| && 0 <= b < |phases[k]|
        ensures LinkedAt(g, phases[j][a].id, phases[k][b].id)
      {
        assert PairWaits<O, E>(g, phases[j][a].id, phases[k][b].id);
        forall max: nat, states: seq<State<O, E>>, events: seq<Event<O, E>>, i: nat
          | Run(g, max, states, events) && i < |states|
          ensures Waits(states[i], phases[j][a].id.id, phases[k][b].id.id)
        {
          assert BarrierHolds(phases, states[i]);
          assert StepWaits(states[i], phases[j][a].id, phases[k][b].id);
        }
      }
    }
    if Linked(phases, g) {
      forall max: nat, states: seq<State<O, E>>, events: seq<Event<O, E>>, i: nat
        | Run(g, max, states, events) && i < |states|
        ensures BarrierHolds(phases, states[i])
      {
        forall j, k, a, b | 0 <= j < k < |phases| && 0 <= a < |phases[j]| && 0 <= b < |phases[k]|
          ensures StepWaits(states[i], phases[j][a].id, phases[k][b].id)
        {
          assert PairWaits<O, E>(g, phases[j][a].id, phases[k][b].id);
          assert LinkedAt(g, phases[j][a].id, phases[k][b].id);
          assert Waits(states[i], phases[j][a].id.id, phases[k][b].id.id);
        }
      }
    }
  }

  /** In a file whose steps declare no needs of their own, phases are barriers exactly when no empty
      phase lies between two others: a gap is where the documented meaning of phases fails. */
  lemma NeedFreeBarriersIffNoGap<J, O(!new), E(!new)>(id: Text, version: Text, phases: seq<Phase<J>>,
                                                      d: WorkflowDefinition<J>, o: O)
    requires IsCompilation(id, version, Flattened(phases, |phases|), d)
    requires forall k, b | 0 <= k < |phases| && 0 <= b < |phases[k]| :: phases[k][b].needs == []
    ensures AlwaysBarriers<J, O, E>(phases, GraphOf(d.steps)) <==> NoGap(phases)
  {
    var g := GraphOf(d.steps);
    if NoGap(phases) {
      forall max: nat, states: seq<State<O, E>>, events: seq<Event<O, E>>, i: nat
        | Run(g, max, states, events) && i < |states|
        ensures BarrierHolds(phases, states[i])
      {
        PhasesAreBarriers(id, version, phases, d, max, states, events, i);
      }
    } else {
      CompiledPhases(id, version, phases, d);
      BarriersIffLinked<J, O, E>(id, version, phases, d, o);
      GapUnlinks(phases, g);
    }
  }

  lemma AncestorMeansNeed(g: Graph, x: StepId, y: StepId)
    requires Ancestor(g, x, y)
    ensures y in g && g[y] != {}
  {
    var p: seq<StepId> :| Walk(g, p) && |p| > 1 && p[0] == y && p[|p| - 1] == x;
    assert p[1] in g[p[0]];
  }

  lemma GapUnlinks<J>(phases: seq<Phase<J>>, g: Graph)
    requires Phased(phases, g) && !NoGap(phases)
    requires forall k, b | 0 <= k < |phases| && 0 <= b < |phases[k]| :: phases[k][b].needs == []
    ensures !Linked(phases, g)
  {
    var i, m := FindGap(phases);
    assert PhasedAt(phases, g, i, 0) && PhasedAt(phases, g, m, 0);
    assert phases[m][0].needs + Previous(phases, m) == [];
    var earlier, later := phases[i][0].id, phases[m][0].id;
    assert g[later.id] == {};
    if Ancestor(g, earlier.id, later.id) {
      AncestorMeansNeed(g, earlier.id, later.id);
    }
    assert !LinkedAt(g, earlier, later);
  }

  lemma FindGap<J>(phases: seq<Phase<J>>) returns (i: nat, m: nat)
    requires !NoGap(phases)
    ensures i < m < |phases| && phases[i] != [] && phases[m - 1] == [] && phases[m] != []
  {
    var i', j, k :| 0 <= i' < j < k < |phases| && phases[i'] != [] && phases[k] != [] && phases[j] == [];
    i := i';
    m := FirstAfterGap(phases, j, k);
  }

  lemma {:induction false} FirstAfterGap<J>(phases: seq<Phase<J>>, j: nat, k: nat) returns (m: nat)
    requires j < k < |phases| && phases[j] == [] && phases[k] != []
    ensures j < m <= k && phases[m - 1] == [] && phases[m] != []
    decreases k - j
  {
    if phases[j + 1] != [] {
      m := j + 1;
    } else {
      m := FirstAfterGap(phases, j + 1, k);
    }
  }

  // ---------------------------------------------------------------------------------------------
  // A file with a gap
  // ---------------------------------------------------------------------------------------------

  /** One step, an empty phase, another step. */
  function GapFile<J>(job: J): seq<Phase<J>> {
    [[StepSpec(Named(0), [], job)], [], [StepSpec(Named(1), [], job)]]
  }

  function GapEntries<J>(job: J): seq<StepSpec<J>> {
    [StepSpec(Named(0), [], job), StepSpec(Named(1), [], job)]
  }

  function GapDefinition<J>(job: J): WorkflowDefinition<J> {
    WorkflowDefinition(0, 0, map[0 := StepDefinition(0, [], job), 1 := StepDefinition(1, [], job)], [0, 1])
  }

  lemma GapFileFlattens<J>(job: J)
    ensures Flattened(GapFile(job), 3) == GapEntries(job)
  {
    var phases := GapFile(job);
    UnphasedEntry(phases[0][0]);
    UnphasedEntry(phases[2][0]);
    assert Flattened(phases, 0) == [] && Previous(phases, 0) == [];
    assert Flattened(phases, 1) == PhaseEntries([], phases[0]);
    assert Previous(phases, 1) == [phases[0][0].id] && PhaseEntries(Previous(phases, 1), phases[1]) == [];
    assert Flattened(phases, 2) == Flattened(phases, 1);
    assert Previous(phases, 2) == PhaseIds(phases[1]) == [];
    assert Flattened(phases, 3) == Flattened(phases, 2) + PhaseEntries([], phases[2]);
  }

  lemma UnphasedEntry<J>(step: StepSpec<J>)
    ensures PhaseEntries([], [step]) == [step]
  {
    assert step.needs + [] == step.needs;
    assert After([], step) == step;
  }

  /** That order is what a ready set of two independent steps yields. */
  lemma GapOrder(g: Graph)
    requires g == map[0 := {}, 1 := {}]
    ensures Exhausted(g, [0, 1]) && Elements([0, 1]) == g.Keys
  {
    var order: seq<StepId> := [0, 1];
    assert order[..0] == [] && order[..1] == [0];
    assert Ready(g, Elements(order[..0])) == {0, 1} && Ready(g, Elements(order[..1])) == {1}
      && Ready(g, Elements(order)) == {};
    forall i | 0 <= i < |order| ensures TakenLeast(g, order, i) {
      assert i == 0 || i == 1;
    }
  }

  lemma GapGraph<J>(job: J)
    ensures var g := GraphOf(GapDefinition(job).steps); g == map[0 := {}, 1 := {}] && |g| == 2 && !Ancestor(g, 0, 1)
  {
    var g := GraphOf(GapDefinition(job).steps);
    var none: seq<StepId> := [];
    assert Elements(none) == {};
    assert g.Keys == {0, 1} && g[0] == {} && g[1] == {};
    assert g == map[0 := {}, 1 := {}];
    assert |g| == |g.Keys|;
    if Ancestor(g, 0, 1) {
      AncestorMeansNeed(g, 0, 1);
    }
  }

  lemma NoNeeds()
    ensures Ids([]) == {} && Ascending(Ids([])) == []
  {
  }

  lemma FirstGapStep<J>(job: J)
    ensures StepOf(GapEntries(job)[0]) == GapDefinition(job).steps[0]
  {
    NoNeeds();
  }

  lemma SecondGapStep<J>(job: J)
    ensures StepOf(GapEntries(job)[1]) == GapDefinition(job).steps[1]
  {
    NoNeeds();
  }

  lemma GapClean<J>(job: J)
    ensures Clean(GapEntries(job))
  {
  }

  lemma GapStepsHeld<J>(job: J, i: nat)
    requires i < 2
    ensures var entry := GapEntries(job)[i];
      entry.id == Named(i) && i in GapDefinition(job).steps && GapDefinition(job).steps[i] == StepOf(entry)
  {
    if i == 0 {
      FirstGapStep(job);
    } else {
      SecondGapStep(job);
    }
  }

  lemma GapNormalizes<J>(job: J)
    ensures Normalizes(GapEntries(job), GapDefinition(job).steps)
  {
    var entries, steps := GapEntries(job), GapDefinition(job).steps;
    GapClean(job);
    forall i | 0 <= i < |entries| ensures entries[i].id.id in steps && steps[entries[i].id.id] == StepOf(entries[i]) {
      GapStepsHeld(job, i);
    }
    forall s | s in steps ensures exists i :: 0 <= i < |entries| && entries[i].id == Named(s) {
      GapStepsHeld(job, s);
    }
  }

  lemma GapValid<J>(job: J)
    ensures Valid(GapDefinition(job))
  {
    var d := GapDefinition(job);
    GapGraph(job);
    GapOrder(GraphOf(d.steps));
    assert d.steps.Keys == {0, 1};
    assert GraphOf(d.steps).Keys == d.steps.Keys;
  }

  lemma GapFileCompiles<J>(job: J)
    ensures IsCompilation(Named(0), Named(0), Flattened(GapFile(job), |GapFile(job)|), GapDefinition(job))
  {
    GapFileFlattens(job);
    GapNormalizes(job);
    GapValid(job);
  }

  /** It compiles, and a run of it starts the later phase before the earlier one has produced anything. */
  lemma GapFileFails<J, O, E>(job: J, o: O) returns (states: seq<State<O, E>>, events: seq<Event<O, E>>)
    ensures IsCompilation(Named(0), Named(0), Flattened(GapFile(job), |GapFile(job)|), GapDefinition(job))
    ensures Run(GraphOf(GapDefinition(job).steps), 2, states, events)
    ensures 1 in Dispatched(states[|events|]) && 0 !in states[|events|].outputs
    ensures !BarrierHolds(GapFile(job), states[|events|])
  {
    var d := GapDefinition(job);
    GapFileCompiles(job);
    GapGraph(job);
    GapOrder(GraphOf(d.steps));
    var start: State<O, E> := State([], {}, map[], [], {}, None, false, false);
    states, events := DispatchWithout(GraphOf(d.steps), [0, 1], 0, 1, o, [start], []);
    GapBarrierBroken(job, states[|events|]);
  }

  lemma GapBarrierBroken<J, O, E>(job: J, s: State<O, E>)
    requires 1 in Dispatched(s) && 0 !in s.outputs
    ensures !BarrierHolds(GapFile(job), s)
  {
    assert !StepWaits(s, GapFile(job)[0][0].id, GapFile(job)[2][0].id);
  }
}
