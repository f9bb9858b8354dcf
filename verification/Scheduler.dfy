/** The workflow runner as a state machine over what its callers can see.

    There are no counters and no ready set here: a step is waiting exactly when it has not been
    dispatched and all its direct dependencies have outputs. Settlements, cancellation and the
    deadline may arrive in any order, so every run of the real scheduler is one of these runs. */
module Scheduler {
  import opened Collections
  import opened Graphs

  datatype StopReason = ExternalCancellation | DeadlinePassed | StepFailed

  datatype StepFailure<+E> = StepFailure(step: StepId, error: E)

  /** What the dispatcher is handed for one step: outputs of direct dependencies only. */
  datatype Call<+O> = Call(step: StepId, dependencies: map<StepId, O>)

  datatype State<O, E> = State(
    calls: seq<Call<O>>,               // in dispatch order
    inFlight: set<StepId>,
    outputs: map<StepId, O>,
    failures: seq<StepFailure<E>>,     // in settlement order
    notCalled: set<StepId>,
    stop: Option<StopReason>,
    cancelled: bool,                   // the caller's token, which is never reset
    expired: bool)                     // the deadline has passed

  datatype Event<O, E> =
    | Cancel
    | Expire
    | ObserveCancellation
    | ObserveDeadline
    | Dispatch
    | SettleOk(step: StepId, output: O)
    | SettleErr(step: StepId, error: E)
    | SettleNotCalled(step: StepId)

  function Order<O>(calls: seq<Call<O>>): (r: seq<StepId>)
    ensures |r| == |calls| && forall i | 0 <= i < |r| :: r[i] == calls[i].step
  {
    seq(|calls|, i requires 0 <= i < |calls| => calls[i].step)
  }

  function Dispatched<O, E>(s: State<O, E>): set<StepId> {
    Elements(Order(s.calls))
  }

  lemma OrderAppend<O>(calls: seq<Call<O>>, c: Call<O>)
    ensures Order(calls + [c]) == Order(calls) + [c.step]
    ensures Elements(Order(calls + [c])) == Elements(Order(calls)) + {c.step}
  {
    assert Order(calls + [c]) == Order(calls) + [c.step];
    ElementsAppend(Order(calls), c.step);
  }

  function FailedSteps<E>(failures: seq<StepFailure<E>>): (r: seq<StepId>)
    ensures |r| == |failures| && forall i | 0 <= i < |r| :: r[i] == failures[i].step
  {
    seq(|failures|, i requires 0 <= i < |failures| => failures[i].step)
  }

  lemma FailedAppend<E>(failures: seq<StepFailure<E>>, f: StepFailure<E>)
    ensures FailedSteps(failures + [f]) == FailedSteps(failures) + [f.step]
    ensures Elements(FailedSteps(failures + [f])) == Elements(FailedSteps(failures)) + {f.step}
  {
    assert FailedSteps(failures + [f]) == FailedSteps(failures) + [f.step];
    ElementsAppend(FailedSteps(failures), f.step);
  }

  function Failed<O, E>(s: State<O, E>): set<StepId> {
    Elements(FailedSteps(s.failures))
  }

  function Restrict<O>(outputs: map<StepId, O>, needs: set<StepId>): map<StepId, O> {
    map d | d in needs && d in outputs :: outputs[d]
  }

  function Waiting<O, E>(g: Graph, s: State<O, E>): set<StepId> {
    set x | x in g && x !in Dispatched(s) && g[x] <= s.outputs.Keys
  }

  ghost predicate Start<O, E>(s: State<O, E>) {
    s == State([], {}, map[], [], {},
               if s.cancelled then Some(ExternalCancellation) else if s.expired then Some(DeadlinePassed) else None,
               s.cancelled, s.expired)
  }

  ghost predicate Enabled<O, E>(g: Graph, max: nat, s: State<O, E>, e: Event<O, E>) {
    match e
    case Cancel => true
    case Expire => true
    case ObserveCancellation => s.stop.None? && s.cancelled
    case ObserveDeadline => s.stop.None? && s.expired
    case Dispatch => s.stop.None? && !s.cancelled && !s.expired && |s.inFlight| < max && Waiting(g, s) != {}
    case SettleOk(x, _) => x in s.inFlight
    case SettleErr(x, _) => x in s.inFlight
    case SettleNotCalled(x) => x in s.inFlight && (s.cancelled || s.stop.Some?)
  }

  ghost function After<O, E>(g: Graph, max: nat, s: State<O, E>, e: Event<O, E>): State<O, E>
    requires Enabled(g, max, s, e)
  {
    match e
    case Cancel => s.(cancelled := true)
    case Expire => s.(expired := true)
    case ObserveCancellation => s.(stop := Some(ExternalCancellation))
    case ObserveDeadline => s.(stop := Some(DeadlinePassed))
    case Dispatch =>
      var x := Least(Waiting(g, s));
      s.(calls := s.calls + [Call(x, Restrict(s.outputs, g[x]))], inFlight := s.inFlight + {x})
    case SettleOk(x, o) => s.(inFlight := s.inFlight - {x}, outputs := s.outputs[x := o])
    case SettleErr(x, error) =>
      s.(inFlight := s.inFlight - {x}, failures := s.failures + [StepFailure(x, error)],
         stop := if s.stop.None? then Some(StepFailed) else s.stop)
    case SettleNotCalled(x) => s.(inFlight := s.inFlight - {x}, notCalled := s.notCalled + {x})
  }

  ghost predicate Step<O, E>(g: Graph, max: nat, s: State<O, E>, e: Event<O, E>, t: State<O, E>) {
    Enabled(g, max, s, e) && t == After(g, max, s, e)
  }

  ghost predicate RunStep<O, E>(g: Graph, max: nat, states: seq<State<O, E>>, events: seq<Event<O, E>>, i: nat)
    requires i < |events| < |states|
  {
    Step(g, max, states[i], events[i], states[i + 1])
  }

  ghost predicate Run<O, E>(g: Graph, max: nat, states: seq<State<O, E>>, events: seq<Event<O, E>>) {
    && |states| == |events| + 1 && Start(states[0])
    && forall i: nat | i < |events| :: RunStep(g, max, states, events, i)
  }

  /** The runner returns when nothing is in flight and it has stopped or nothing more is waiting.
      The second case is only reached through a fresh look at the token and the clock. */
  ghost predicate Finished<O, E>(g: Graph, s: State<O, E>) {
    s.inFlight == {} && (s.stop.Some? || (!s.cancelled && !s.expired && Waiting(g, s) == {}))
  }

  lemma RunExtends<O, E>(g: Graph, max: nat, states: seq<State<O, E>>, events: seq<Event<O, E>>, e: Event<O, E>)
    requires Run(g, max, states, events) && Enabled(g, max, states[|events|], e)
    ensures Run(g, max, states + [After(g, max, states[|events|], e)], events + [e])
  {
    var states', events' := states + [After(g, max, states[|events|], e)], events + [e];
    forall i: nat | i < |events'| ensures RunStep(g, max, states', events', i) {
      assert i < |events| ==> RunStep(g, max, states, events, i);
    }
  }

  // ---------------------------------------------------------------------------------------------
  // What every step keeps
  // ---------------------------------------------------------------------------------------------

  ghost predicate Inv<O, E>(g: Graph, max: nat, s: State<O, E>) {
    && CallsSound(g, s)
    && (forall x: StepId :: OneFate(s, x))
    && Distinct(FailedSteps(s.failures))
    && |s.inFlight| <= max
    && (s.notCalled != {} ==> s.cancelled || s.stop.Some?)
    && (s.failures != [] ==> s.stop.Some?)
  }

  /** Each step is dispatched at most once, and only with the outputs of all its dependencies. */
  ghost predicate CallsSound<O, E>(g: Graph, s: State<O, E>) {
    && Distinct(Order(s.calls))
    && forall i: nat | i < |s.calls| :: CallSoundAt(g, s.outputs, s.calls, i)
  }

  ghost predicate CallSoundAt<O>(g: Graph, outputs: map<StepId, O>, calls: seq<Call<O>>, i: nat)
    requires i < |calls|
  {
    CallSound(g, outputs, calls[i])
  }

  ghost predicate CallSound<O>(g: Graph, outputs: map<StepId, O>, c: Call<O>) {
    c.step in g && g[c.step] <= outputs.Keys && c.dependencies == Restrict(outputs, g[c.step])
  }

  /** A dispatched step is in flight, completed, failed or not called, and only one of these;
      a step not dispatched is none of them. */
  ghost predicate OneFate<O, E>(s: State<O, E>, x: StepId) {
    var flying, done, failed, skipped := x in s.inFlight, x in s.outputs, x in Failed(s), x in s.notCalled;
    && (x in Dispatched(s) <==> flying || done || failed || skipped)
    && !(flying && done) && !(flying && failed) && !(flying && skipped)
    && !(done && failed) && !(done && skipped) && !(failed && skipped)
  }

  lemma InvStep<O, E>(g: Graph, max: nat, s: State<O, E>, e: Event<O, E>, t: State<O, E>)
    requires Inv(g, max, s) && Step(g, max, s, e, t)
    ensures Inv(g, max, t)
  {
    match e {
      case Dispatch => DispatchKeepsInv(g, max, s, t);
      case SettleOk(x, o) => CompletionKeepsInv(g, max, s, x, o, t);
      case SettleErr(x, error) => FailureKeepsInv(g, max, s, x, error, t);
      case SettleNotCalled(x) => SkipKeepsInv(g, max, s, x, t);
      case _ => SignalKeepsInv(g, max, s, e, t);
    }
  }

  lemma SignalKeepsInv<O, E>(g: Graph, max: nat, s: State<O, E>, e: Event<O, E>, t: State<O, E>)
    requires Inv(g, max, s) && Step(g, max, s, e, t)
    requires e.Cancel? || e.Expire? || e.ObserveCancellation? || e.ObserveDeadline?
    ensures Inv(g, max, t)
  {
    forall x: StepId ensures OneFate(t, x) {
      assert OneFate(s, x);
    }
  }

  lemma DispatchKeepsInv<O, E>(g: Graph, max: nat, s: State<O, E>, t: State<O, E>)
    requires Inv(g, max, s) && Step(g, max, s, Dispatch, t)
    ensures Inv(g, max, t)
  {
    var c := t.calls[|s.calls|];
    OrderAppend(s.calls, c);
    assert c.step !in Dispatched(s);
    forall i: nat | i < |t.calls| ensures CallSoundAt(g, t.outputs, t.calls, i) {
      if i < |s.calls| {
        assert CallSoundAt(g, s.outputs, s.calls, i) && t.calls[i] == s.calls[i];
      }
    }
    forall x: StepId ensures OneFate(t, x) {
      assert OneFate(s, x);
    }
  }

  lemma CompletionKeepsInv<O, E>(g: Graph, max: nat, s: State<O, E>, x: StepId, o: O, t: State<O, E>)
    requires Inv(g, max, s) && Step(g, max, s, SettleOk(x, o), t)
    ensures Inv(g, max, t)
  {
    assert OneFate(s, x);
    forall y: StepId ensures OneFate(t, y) {
      assert OneFate(s, y);
    }
    forall i: nat | i < |t.calls| ensures CallSoundAt(g, t.outputs, t.calls, i) {
      assert CallSoundAt(g, s.outputs, s.calls, i);
      assert Restrict(t.outputs, g[s.calls[i].step]) == Restrict(s.outputs, g[s.calls[i].step]);
    }
  }

  lemma FailureKeepsInv<O, E>(g: Graph, max: nat, s: State<O, E>, x: StepId, error: E, t: State<O, E>)
    requires Inv(g, max, s) && Step(g, max, s, SettleErr(x, error), t)
    ensures Inv(g, max, t)
  {
    FailedAppend(s.failures, StepFailure(x, error));
    assert OneFate(s, x);
    assert x !in Failed(s);
    forall y: StepId ensures OneFate(t, y) {
      assert OneFate(s, y);
    }
  }

  lemma SkipKeepsInv<O, E>(g: Graph, max: nat, s: State<O, E>, x: StepId, t: State<O, E>)
    requires Inv(g, max, s) && Step(g, max, s, SettleNotCalled(x), t)
    ensures Inv(g, max, t)
  {
    assert OneFate(s, x);
    forall y: StepId ensures OneFate(t, y) {
      assert OneFate(s, y);
    }
  }

  /** Safety of every run, at every moment of it. */
  lemma {:induction false} RunKeepsInv<O, E>(g: Graph, max: nat, states: seq<State<O, E>>, events: seq<Event<O, E>>,
                                             i: nat)
    requires Run(g, max, states, events) && i < |states|
    ensures Inv(g, max, states[i])
  {
    if i == 0 {
    } else {
      RunKeepsInv(g, max, states, events, i - 1);
      assert RunStep(g, max, states, events, i - 1);
      InvStep(g, max, states[i - 1], events[i - 1], states[i]);
    }
  }

  /** Once stopped, the reason never changes and nothing more is dispatched; what was dispatched
      and what was completed is never revised. */
  lemma {:induction false} StopIsLatched<O, E>(g: Graph, max: nat, states: seq<State<O, E>>, events: seq<Event<O, E>>,
                                               i: nat, j: nat)
    requires Run(g, max, states, events) && i <= j < |states|
    ensures states[i].stop.Some? ==> states[j].stop == states[i].stop && states[j].calls == states[i].calls
    ensures states[i].calls <= states[j].calls
    ensures forall x | x in states[i].outputs :: x in states[j].outputs && states[j].outputs[x] == states[i].outputs[x]
  {
    if i < j {
      StopIsLatched(g, max, states, events, i, j - 1);
      RunKeepsInv(g, max, states, events, j - 1);
      assert RunStep(g, max, states, events, j - 1);
      NothingRevised(g, max, states[j - 1], events[j - 1], states[j]);
    }
  }

  lemma NothingRevised<O, E>(g: Graph, max: nat, s: State<O, E>, e: Event<O, E>, t: State<O, E>)
    requires Inv(g, max, s) && Step(g, max, s, e, t)
    ensures s.stop.Some? ==> t.stop == s.stop && t.calls == s.calls
    ensures s.calls <= t.calls
    ensures forall x | x in s.outputs :: x in t.outputs && t.outputs[x] == s.outputs[x]
  {
    if e.SettleOk? {
      assert OneFate(s, e.step);
    }
  }

  /** With nothing in flight, failed or skipped, what was dispatched is what has completed. */
  lemma DispatchedIsCompleted<O, E>(s: State<O, E>)
    requires forall x: StepId :: OneFate(s, x)
    requires s.inFlight == {} && s.failures == [] && s.notCalled == {}
    ensures Dispatched(s) == s.outputs.Keys
  {
    forall x: StepId ensures x in Dispatched(s) <==> x in s.outputs {
      assert OneFate(s, x);
    }
  }

  /** Every direct or transitive dependency of a dispatched step has completed. */
  lemma {:induction false} AncestorsComplete<O, E>(g: Graph, max: nat, s: State<O, E>, p: seq<StepId>)
    requires Inv(g, max, s) && Walk(g, p) && |p| > 1 && p[0] in Dispatched(s)
    ensures p[|p| - 1] in s.outputs
  {
    var i :| 0 <= i < |s.calls| && Order(s.calls)[i] == p[0];
    assert CallSoundAt(g, s.outputs, s.calls, i);
    assert p[1] in g[p[0]];
    if |p| > 2 {
      assert OneFate(s, p[1]);
      AncestorsComplete(g, max, s, p[1..]);
    }
  }

  // ---------------------------------------------------------------------------------------------
  // Progress
  // ---------------------------------------------------------------------------------------------

  /** A runner that finishes without a reason to stop has an output for every step, so the
      `Incomplete` result cannot be produced from a compiled definition. */
  lemma FinishedWithoutReasonIsComplete<O, E>(g: Graph, order: seq<StepId>, max: nat, s: State<O, E>)
    requires Greedy(g, order) && Elements(order) == g.Keys
    requires Inv(g, max, s) && Finished(g, s) && s.stop.None?
    ensures s.outputs.Keys == g.Keys
  {
    DispatchedIsCompleted(s);
    OrderedPrefixComplete(g, order, s, |order|);
    assert order[..|order|] == order;
    forall x | x in s.outputs ensures x in g {
      var i :| 0 <= i < |s.calls| && Order(s.calls)[i] == x;
      assert CallSoundAt(g, s.outputs, s.calls, i);
    }
  }

  lemma {:induction false} OrderedPrefixComplete<O, E>(g: Graph, order: seq<StepId>, s: State<O, E>, n: nat)
    requires Greedy(g, order) && n <= |order|
    requires Waiting(g, s) == {} && Dispatched(s) == s.outputs.Keys
    ensures Elements(order[..n]) <= s.outputs.Keys
  {
    if n > 0 {
      OrderedPrefixComplete(g, order, s, n - 1);
      GreedySound(g, order);
      var x := order[n - 1];
      assert g[x] <= Elements(order[..n - 1]);
      assert x !in Waiting(g, s);
      assert order[..n] == order[..n - 1] + [x];
    }
  }

  predicate FromRunner<O, E>(e: Event<O, E>) {
    !e.Cancel? && !e.Expire?
  }

  /** Undispatched steps still cost a dispatch and a settlement, stopping costs one more. */
  function Remaining<O, E>(g: Graph, s: State<O, E>): nat {
    2 * |g.Keys - Dispatched(s)| + |s.inFlight| + if s.stop.None? then 1 else 0
  }

  /** Every event the runner handles brings the end nearer; the outside world cannot push it away. */
  lemma EventsRunOut<O, E>(g: Graph, max: nat, s: State<O, E>, e: Event<O, E>, t: State<O, E>)
    requires Step(g, max, s, e, t) && Inv(g, max, s)
    ensures if FromRunner(e) then Remaining(g, t) < Remaining(g, s) else Remaining(g, t) == Remaining(g, s)
  {
    if e.Dispatch? {
      DispatchSpends(g, s, t.calls[|s.calls|]);
      assert OneFate(s, t.calls[|s.calls|].step);
    }
  }

  lemma DispatchSpends<O, E>(g: Graph, s: State<O, E>, c: Call<O>)
    requires c.step in g && c.step !in Dispatched(s)
    ensures |g.Keys - Elements(Order(s.calls + [c]))| == |g.Keys - Dispatched(s)| - 1
  {
    OrderAppend(s.calls, c);
    assert g.Keys - Dispatched(s) == (g.Keys - (Dispatched(s) + {c.step})) + {c.step};
  }

  /** A runner that has not finished either awaits a called step or can act by itself. */
  lemma NeverStuck<O, E>(g: Graph, max: nat, s: State<O, E>)
    requires max > 0 && Inv(g, max, s) && !Finished(g, s) && s.inFlight == {}
    ensures Enabled(g, max, s, ObserveCancellation) || Enabled(g, max, s, ObserveDeadline)
      || Enabled(g, max, s, Dispatch)
  {
  }

  function RunnerEvents<O, E>(events: seq<Event<O, E>>): nat {
    if events == [] then 0
    else RunnerEvents(events[..|events| - 1]) + if FromRunner(events[|events| - 1]) then 1 else 0
  }

  lemma FullBudget<O, E>(g: Graph, s: State<O, E>)
    requires Start(s)
    ensures Remaining(g, s) <= 2 * |g| + 1
  {
    assert Dispatched(s) == {};
    assert g.Keys - Dispatched(s) == g.Keys && |g.Keys| == |g|;
  }

  /** No run of any length handles more than two events per step and one stop. */
  lemma {:induction false} RunsAreBounded<O, E>(g: Graph, max: nat, states: seq<State<O, E>>, events: seq<Event<O, E>>,
                                                i: nat)
    requires Run(g, max, states, events) && i < |states|
    ensures RunnerEvents(events[..i]) + Remaining(g, states[i]) <= 2 * |g| + 1
  {
    if i == 0 {
      FullBudget(g, states[0]);
    } else {
      RunsAreBounded(g, max, states, events, i - 1);
      RunKeepsInv(g, max, states, events, i - 1);
      assert RunStep(g, max, states, events, i - 1);
      EventsRunOut(g, max, states[i - 1], events[i - 1], states[i]);
      assert events[..i][..i - 1] == events[..i - 1];
    }
  }

  // ---------------------------------------------------------------------------------------------
  // One step at a time
  // ---------------------------------------------------------------------------------------------

  /** With a bound of one, steps are dispatched in exactly the definition's stable order. */
  lemma {:induction false} SequentialDispatchFollowsStableOrder<O, E>(
      g: Graph, order: seq<StepId>, states: seq<State<O, E>>, events: seq<Event<O, E>>, i: nat)
    requires Run(g, 1, states, events) && i < |states| && Exhausted(g, order)
    ensures Order(states[i].calls) <= order
    ensures Finished(g, states[i]) && states[i].stop.None? ==> Order(states[i].calls) == order
  {
    SequentialDispatchIsGreedy(g, states, events, i);
    GreedyIsPrefix(g, Order(states[i].calls), order);
    RunKeepsInv(g, 1, states, events, i);
    if Finished(g, states[i]) && states[i].stop.None? {
      DispatchedIsCompleted(states[i]);
      assert Waiting(g, states[i]) == Ready(g, Dispatched(states[i]));
      ExhaustedUnique(g, Order(states[i].calls), order);
    }
  }

  lemma {:induction false} SequentialDispatchIsGreedy<O, E>(
      g: Graph, states: seq<State<O, E>>, events: seq<Event<O, E>>, i: nat)
    requires Run(g, 1, states, events) && i < |states|
    ensures Greedy(g, Order(states[i].calls))
  {
    if i > 0 {
      SequentialDispatchIsGreedy(g, states, events, i - 1);
      var s, e, t := states[i - 1], events[i - 1], states[i];
      RunKeepsInv(g, 1, states, events, i - 1);
      assert RunStep(g, 1, states, events, i - 1);
      if e.Dispatch? {
        assert s.inFlight == {};
        DispatchedIsCompleted(s);
        assert Waiting(g, s) == Ready(g, Dispatched(s));
        GreedyExtend(g, Order(s.calls));
        assert Order(t.calls) == Order(s.calls) + [Least(Waiting(g, s))];
      }
    }
  }

  /** A complete set of outputs does not protect a run: whenever one could end successfully, the same
      run with a cancellation or the deadline noticed at the last look ends stopped for that reason,
      every output in hand. */
  lemma LateStop<O, E>(g: Graph, max: nat, states: seq<State<O, E>>, events: seq<Event<O, E>>, reason: StopReason)
    returns (states': seq<State<O, E>>, events': seq<Event<O, E>>)
    requires Run(g, max, states, events) && reason != StepFailed
    requires Finished(g, states[|events|]) && states[|events|].stop.None?
    ensures Run(g, max, states', events') && events <= events'
    ensures var s, s' := states[|events|], states'[|events'|];
      Finished(g, s') && s'.outputs == s.outputs && s'.failures == s.failures && s'.stop == Some(reason)
  {
    var s := states[|events|];
    var signal, look := if reason.DeadlinePassed? then Expire else Cancel,
                        if reason.DeadlinePassed? then ObserveDeadline else ObserveCancellation;
    var s1 := After(g, max, s, signal);
    RunExtends(g, max, states, events, signal);
    RunExtends(g, max, states + [s1], events + [signal], look);
    states', events' := states + [s1] + [After(g, max, s1, look)], events + [signal] + [look];
  }
}
