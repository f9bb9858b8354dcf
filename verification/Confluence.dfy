/** When each step's result is a function of its job and its dependencies' outputs, the order in
    which concurrent steps settle does not matter. */
module Confluence {
  import opened Collections
  import opened Graphs
  import opened Scheduler

  /** What a step returns for the dependency outputs it is given. */
  type Behaviour<!O, !E> = (StepId, map<StepId, O>) -> Result<O, E>

  /** The graph evaluated one step after another along `order`; a step whose dependencies did not
      all succeed is never evaluated. */
  function Evaluate<O, E>(g: Graph, order: seq<StepId>, f: Behaviour<O, E>): map<StepId, O> {
    if order == [] then map[]
    else EvaluateNext(g, Evaluate(g, order[..|order| - 1], f), f, order[|order| - 1])
  }

  function EvaluateNext<O, E>(g: Graph, done: map<StepId, O>, f: Behaviour<O, E>, x: StepId): map<StepId, O> {
    if Succeeds(g, done, f, x) then done[x := f(x, Restrict(done, g[x])).value] else done
  }

  predicate Succeeds<O, E>(g: Graph, done: map<StepId, O>, f: Behaviour<O, E>, x: StepId) {
    x in g && g[x] <= done.Keys && f(x, Restrict(done, g[x])).Ok?
  }

  /** `values` are what the definition's steps produce: every step agrees with its dependencies. */
  ghost predicate Solves<O, E>(g: Graph, f: Behaviour<O, E>, values: map<StepId, O>) {
    && values.Keys <= g.Keys
    && forall x | x in g :: SolvedAt(g, f, values, x)
  }

  ghost predicate SolvedAt<O, E>(g: Graph, f: Behaviour<O, E>, values: map<StepId, O>, x: StepId)
    requires x in g
  {
    && (x in values <==> Succeeds(g, values, f, x))
    && (x in values ==> f(x, Restrict(values, g[x])) == Ok(values[x]))
  }

  /** Sequential evaluation along a dependency-respecting order solves every step's equation. */
  lemma EvaluationSolves<O, E>(g: Graph, order: seq<StepId>, f: Behaviour<O, E>)
    requires Topological(g, order)
    ensures Solves(g, f, Evaluate(g, order, f))
  {
    EvaluatedWithin(g, order, f);
    assert order[..|order|] == order;
    forall x | x in g ensures SolvedAt(g, f, Evaluate(g, order, f), x) {
      assert x in Elements(order);
      var i :| 0 <= i < |order| && order[i] == x;
      PrefixSolves(g, order, f, |order|, i);
    }
  }

  lemma {:induction false} EvaluatedWithin<O, E>(g: Graph, order: seq<StepId>, f: Behaviour<O, E>)
    ensures Evaluate(g, order, f).Keys <= Elements(order)
  {
    if order != [] {
      var n := |order| - 1;
      EvaluatedWithin(g, order[..n], f);
      assert order == order[..n] + [order[n]];
      ElementsAppend(order[..n], order[n]);
    }
  }

  lemma {:induction false} PrefixSolves<O, E>(g: Graph, order: seq<StepId>, f: Behaviour<O, E>, n: nat, i: nat)
    requires Topological(g, order) && i < n <= |order|
    ensures order[i] in g && SolvedAt(g, f, Evaluate(g, order[..n], f), order[i])
  {
    assert order[i] in Elements(order);
    EvaluatedWithin(g, order[..n - 1], f);
    if i < n - 1 {
      PrefixSolves(g, order, f, n - 1, i);
    }
    EvaluateOne(g, f, Evaluate(g, order[..n - 1], f), order[n - 1], order[i]);
    EvaluatePrefix(g, order, f, n);
  }

  lemma EvaluatePrefix<O, E>(g: Graph, order: seq<StepId>, f: Behaviour<O, E>, n: nat)
    requires 0 < n <= |order|
    ensures Evaluate(g, order[..n], f) == EvaluateNext(g, Evaluate(g, order[..n - 1], f), f, order[n - 1])
  {
    assert order[..n][..n - 1] == order[..n - 1];
  }

  /** Evaluating one more step solves it and disturbs no step that does not need it. */
  lemma EvaluateOne<O, E>(g: Graph, f: Behaviour<O, E>, before: map<StepId, O>, last: StepId, x: StepId)
    requires x in g && last !in before && last !in g[x]
    requires x != last ==> SolvedAt(g, f, before, x)
    ensures SolvedAt(g, f, EvaluateNext(g, before, f, last), x)
  {
    if Succeeds(g, before, f, last) {
      var after := EvaluateNext(g, before, f, last);
      assert Restrict(after, g[x]) == Restrict(before, g[x]);
    }
  }

  /** Settlements are those `f` prescribes for what each step was called with. */
  ghost predicate Follows<O, E>(g: Graph, f: Behaviour<O, E>, states: seq<State<O, E>>, events: seq<Event<O, E>>)
    requires |states| == |events| + 1
  {
    forall i | 0 <= i < |events| :: SettlesBy(g, f, states[i], events[i])
  }

  ghost predicate SettlesBy<O, E>(g: Graph, f: Behaviour<O, E>, s: State<O, E>, e: Event<O, E>) {
    match e
    case SettleOk(x, o) => x in g && f(x, Restrict(s.outputs, g[x])) == Ok(o)
    case SettleErr(x, error) => x in g && f(x, Restrict(s.outputs, g[x])) == Err(error)
    case _ => true
  }

  /** What has settled so far is what sequential evaluation says. */
  ghost predicate AgreesWith<O, E>(g: Graph, f: Behaviour<O, E>, values: map<StepId, O>, s: State<O, E>) {
    && (forall x | x in s.outputs :: x in values && s.outputs[x] == values[x])
    && (forall k | 0 <= k < |s.failures| :: FailsWith(g, f, values, s.failures[k]))
  }

  ghost predicate FailsWith<O, E>(g: Graph, f: Behaviour<O, E>, values: map<StepId, O>, failure: StepFailure<E>) {
    && failure.step in g && g[failure.step] <= values.Keys
    && f(failure.step, Restrict(values, g[failure.step])) == Err(failure.error)
  }

  /** At every moment of every run, however settlements interleave and whatever stops it. */
  lemma {:induction false} EveryRunAgrees<O, E>(g: Graph, max: nat, f: Behaviour<O, E>, values: map<StepId, O>,
                                                states: seq<State<O, E>>, events: seq<Event<O, E>>, i: nat)
    requires Solves(g, f, values) && Run(g, max, states, events) && Follows(g, f, states, events) && i < |states|
    ensures AgreesWith(g, f, values, states[i])
  {
    if i > 0 {
      EveryRunAgrees(g, max, f, values, states, events, i - 1);
      RunKeepsInv(g, max, states, events, i - 1);
      assert RunStep(g, max, states, events, i - 1);
      assert SettlesBy(g, f, states[i - 1], events[i - 1]);
      StepAgrees(g, max, f, values, states[i - 1], events[i - 1], states[i]);
    }
  }

  lemma StepAgrees<O, E>(g: Graph, max: nat, f: Behaviour<O, E>, values: map<StepId, O>,
                         s: State<O, E>, e: Event<O, E>, t: State<O, E>)
    requires Solves(g, f, values) && Inv(g, max, s) && AgreesWith(g, f, values, s)
    requires Step(g, max, s, e, t) && SettlesBy(g, f, s, e)
    ensures AgreesWith(g, f, values, t)
  {
    if e.SettleOk? || e.SettleErr? {
      CalledWithValues(g, max, values, s, e.step);
      assert SolvedAt(g, f, values, e.step);
    }
  }

  lemma CalledWithValues<O, E>(g: Graph, max: nat, values: map<StepId, O>, s: State<O, E>, x: StepId)
    requires Inv(g, max, s) && x in s.inFlight
    requires forall y | y in s.outputs :: y in values && s.outputs[y] == values[y]
    ensures x in g && g[x] <= values.Keys && Restrict(s.outputs, g[x]) == Restrict(values, g[x])
  {
    assert OneFate(s, x);
    var i :| 0 <= i < |s.calls| && Order(s.calls)[i] == x;
    assert CallSoundAt(g, s.outputs, s.calls, i);
    forall d | d in g[x] ensures d in values && s.outputs[d] == values[d] {
    }
    assert g[x] <= values.Keys;
  }

  /** Two runs of one definition that both complete return the same outputs, whatever their
      concurrency bounds and settlement orders: those of evaluating the stable order. */
  lemma CompleteRunsAgree<O, E>(g: Graph, order: seq<StepId>, f: Behaviour<O, E>,
                                max: nat, states: seq<State<O, E>>, events: seq<Event<O, E>>)
    requires Greedy(g, order) && Elements(order) == g.Keys
    requires Run(g, max, states, events) && Follows(g, f, states, events)
    requires Finished(g, states[|events|]) && states[|events|].stop.None?
    ensures states[|events|].outputs == Evaluate(g, order, f)
  {
    var s, values := states[|events|], Evaluate(g, order, f);
    GreedySound(g, order);
    EvaluationSolves(g, order, f);
    EveryRunAgrees(g, max, f, values, states, events, |events|);
    RunKeepsInv(g, max, states, events, |events|);
    FinishedWithoutReasonIsComplete(g, order, max, s);
  }

  ghost predicate Undisturbed<O, E>(states: seq<State<O, E>>, events: seq<Event<O, E>>)
    requires states != []
  {
    !states[0].cancelled && !states[0].expired && forall i | 0 <= i < |events| :: FromRunner(events[i])
  }

  lemma {:induction false} UndisturbedStops<O, E>(g: Graph, max: nat, states: seq<State<O, E>>,
                                                  events: seq<Event<O, E>>, i: nat)
    requires Run(g, max, states, events) && Undisturbed(states, events) && i < |states|
    ensures !states[i].cancelled && !states[i].expired
    ensures states[i].stop.Some? <==> states[i].failures != []
    ensures states[i].stop.Some? ==> states[i].stop.value == StepFailed
  {
    if i > 0 {
      UndisturbedStops(g, max, states, events, i - 1);
      assert RunStep(g, max, states, events, i - 1);
      assert FromRunner(events[i - 1]);
    }
  }

  /** Without cancellation and without a deadline, a run completes exactly when sequential
      evaluation reaches every step. */
  lemma CompletesIffNothingFails<O, E>(g: Graph, order: seq<StepId>, f: Behaviour<O, E>,
                                       max: nat, states: seq<State<O, E>>, events: seq<Event<O, E>>)
    requires Greedy(g, order) && Elements(order) == g.Keys
    requires Run(g, max, states, events) && Follows(g, f, states, events) && Undisturbed(states, events)
    requires Finished(g, states[|events|])
    ensures states[|events|].stop.None? <==> Evaluate(g, order, f).Keys == g.Keys
  {
    var s, values := states[|events|], Evaluate(g, order, f);
    UndisturbedStops(g, max, states, events, |events|);
    if s.stop.None? {
      CompleteRunsAgree(g, order, f, max, states, events);
      RunKeepsInv(g, max, states, events, |events|);
      FinishedWithoutReasonIsComplete(g, order, max, s);
    } else {
      GreedySound(g, order);
      EvaluationSolves(g, order, f);
      EveryRunAgrees(g, max, f, values, states, events, |events|);
      var failure := s.failures[0];
      assert FailsWith(g, f, values, failure);
      assert SolvedAt(g, f, values, failure.step);
      assert failure.step !in values;
    }
  }
}
