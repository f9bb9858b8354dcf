/** The reference runner: dependency counters, a least-first ready set, bounded concurrency, a
    latched stop reason and draining, refining the state machine of `Scheduler`. */
module Execution {
  import opened Collections
  import opened Graphs
  import opened Counters
  import opened Definition
  import opened Scheduler
  import opened Confluence

  datatype Settlement<+O, +E> = NotCalled | Settled(result: Result<O, E>)

  /** What the dispatch of one step runs into: whether its token, once set, was noticed before the
      dispatcher was ready, what that dispatcher refused with if it never became ready, and whether the
      token was noticed by the last look before the call. */
  datatype Race<+E> = Race(noticedWaiting: bool, refused: Option<E>, noticedReady: bool)

  /** Everything the runner cannot control, read one observation at a time: the caller's token, the
      clock, which called step settles next, how its dispatch went and what its call returned. */
  datatype Environment<!O, !E> = Environment(
    cancelledAt: nat -> bool,
    expiredAt: nat -> bool,
    completes: (nat, set<StepId>) -> StepId,
    races: (nat, StepId) -> Race<E>,
    settles: (nat, Call<O>) -> Result<O, E>)

  /** Tokens and clocks never go back, and only steps in flight settle. */
  ghost predicate Honest<O, E>(env: Environment<O, E>) {
    && (forall t, u | t <= u :: env.cancelledAt(t) ==> env.cancelledAt(u))
    && (forall t, u | t <= u :: env.expiredAt(t) ==> env.expiredAt(u))
    && (forall t, s: set<StepId> | s != {} :: env.completes(t, s) in s)
  }

  /** What a step that is not given up returns: its dispatcher's refusal, or what its call returned. */
  function Returned<O, E>(env: Environment<O, E>, t: nat, call: Call<O>): Result<O, E> {
    var refused := env.races(t, call.step).refused;
    if refused.Some? then Err(refused.value) else env.settles(t, call)
  }

  /** One dispatched step: a set token noticed in time wins over readiness, and a refusing dispatcher
      over the last look at the token. While the token is unset the step always settles, and whenever
      it settles it is with what it returned. */
  function DispatchStep<O, E>(env: Environment<O, E>, t: nat, call: Call<O>, token: bool): (r: Settlement<O, E>)
    ensures !token ==> r == Settled(Returned(env, t, call))
    ensures r.Settled? ==> r.result == Returned(env, t, call)
    ensures token && env.races(t, call.step).noticedWaiting ==> r.NotCalled?
    ensures r.NotCalled? && !env.races(t, call.step).noticedWaiting ==> env.races(t, call.step).refused.None?
  {
    var race := env.races(t, call.step);
    if token && race.noticedWaiting then NotCalled
    else if race.refused.Some? then Settled(Err(race.refused.value))
    else if token && race.noticedReady then NotCalled
    else Settled(env.settles(t, call))
  }

  datatype WorkflowOutcome<+O> = WorkflowOutcome(outputs: map<StepId, O>, leafOutputs: map<StepId, O>)

  datatype WorkflowFailure<+O, +E> =
    | Cancelled(completed: map<StepId, O>, settledFailures: seq<StepFailure<E>>)
    | DeadlineExceeded(completed: map<StepId, O>, settledFailures: seq<StepFailure<E>>)
    | StepsFailed(completed: map<StepId, O>, failures: seq<StepFailure<E>>)
    | Incomplete(completed: map<StepId, O>, pending: seq<StepId>)

  /** Steps no other step needs. */
  function Leaves(g: Graph): set<StepId> {
    set x | x in g && forall s | s in g :: x !in g[s]
  }

  // ---------------------------------------------------------------------------------------------
  // Failures in step-id order
  // ---------------------------------------------------------------------------------------------

  function Insert<E>(f: StepFailure<E>, sorted: seq<StepFailure<E>>): seq<StepFailure<E>> {
    if sorted == [] || f.step < sorted[0].step then [f] + sorted
    else [sorted[0]] + Insert(f, sorted[1..])
  }

  function SortByStep<E>(failures: seq<StepFailure<E>>): seq<StepFailure<E>> {
    if failures == [] then [] else Insert(failures[|failures| - 1], SortByStep(failures[..|failures| - 1]))
  }

  ghost predicate SortedByStep<E>(failures: seq<StepFailure<E>>) {
    forall i, j | 0 <= i < j < |failures| :: failures[i].step < failures[j].step
  }

  lemma {:induction false} InsertSorts<E>(f: StepFailure<E>, sorted: seq<StepFailure<E>>)
    requires SortedByStep(sorted) && forall k | 0 <= k < |sorted| :: sorted[k].step != f.step
    ensures SortedByStep(Insert(f, sorted))
    ensures multiset(Insert(f, sorted)) == multiset(sorted) + multiset{f}
  {
    if sorted == [] || f.step < sorted[0].step {
    } else {
      InsertSorts(f, sorted[1..]);
      assert sorted == [sorted[0]] + sorted[1..];
      HeadBelow(sorted[0], Insert(f, sorted[1..]), sorted[1..], f);
    }
  }

  lemma HeadBelow<E>(head: StepFailure<E>, tail: seq<StepFailure<E>>, rest: seq<StepFailure<E>>, f: StepFailure<E>)
    requires multiset(tail) == multiset(rest) + multiset{f} && SortedByStep(tail)
    requires head.step < f.step && forall k | 0 <= k < |rest| :: head.step < rest[k].step
    ensures SortedByStep([head] + tail)
  {
    forall k | 0 <= k < |tail| ensures head.step < tail[k].step {
      assert tail[k] in multiset(tail);
      assert tail[k] in multiset(rest) + multiset{f};
    }
  }

  /** Reported failures are all the observed ones, strictly ordered by step. */
  lemma {:induction false} FailuresReportedInOrder<E>(failures: seq<StepFailure<E>>)
    requires Distinct(FailedSteps(failures))
    ensures SortedByStep(SortByStep(failures)) && multiset(SortByStep(failures)) == multiset(failures)
  {
    if failures != [] {
      var init, last := failures[..|failures| - 1], failures[|failures| - 1];
      assert failures == init + [last];
      assert forall k | 0 <= k < |init| :: FailedSteps(init)[k] == FailedSteps(failures)[k];
      FailuresReportedInOrder(init);
      forall k | 0 <= k < |SortByStep(init)| ensures SortByStep(init)[k].step != last.step {
        assert SortByStep(init)[k] in multiset(init);
        var i :| 0 <= i < |init| && init[i] == SortByStep(init)[k];
        assert FailedSteps(failures)[i] == init[i].step;
        assert FailedSteps(failures)[|init|] == last.step;
      }
      InsertSorts(last, SortByStep(init));
    }
  }

  // ---------------------------------------------------------------------------------------------
  // How the runner's variables mirror the state machine
  // ---------------------------------------------------------------------------------------------

  /** The runner's variables. */
  datatype Vars<O, E> = Vars(ready: set<StepId>, inFlight: map<StepId, Call<O>>, outputs: map<StepId, O>,
                             failures: seq<StepFailure<E>>, remaining: map<StepId, nat>, stopReason: Option<StopReason>)

  ghost predicate Coherent<O, E>(g: Graph, s: State<O, E>, v: Vars<O, E>) {
    Mirrors(g, s, v) && (s.stop.None? ==> Tracks(g, s, v))
  }

  ghost predicate Mirrors<O, E>(g: Graph, s: State<O, E>, v: Vars<O, E>) {
    && s.inFlight == v.inFlight.Keys && s.outputs == v.outputs && s.failures == v.failures && s.stop == v.stopReason
    && forall x | x in v.inFlight :: x in g && v.inFlight[x] == Call(x, Restrict(s.outputs, g[x]))
  }

  /** Until the runner stops, its counters and ready set describe exactly the waiting steps. */
  ghost predicate Tracks<O, E>(g: Graph, s: State<O, E>, v: Vars<O, E>) {
    Counts(g, s.outputs.Keys, v.remaining) && v.ready == Waiting(g, s)
  }

  /** An event the environment is answerable for is one it made happen. */
  ghost predicate Prescribed<O, E>(g: Graph, env: Environment<O, E>, s: State<O, E>, e: Event<O, E>) {
    match e
    case Cancel => exists t :: env.cancelledAt(t)
    case Expire => exists t :: env.expiredAt(t)
    case SettleOk(x, o) => x in g && exists t :: Returned(env, t, Call(x, Restrict(s.outputs, g[x]))) == Ok(o)
    case SettleErr(x, error) => x in g && exists t :: Returned(env, t, Call(x, Restrict(s.outputs, g[x]))) == Err(error)
    case _ => true
  }

  ghost predicate StartsPrescribed<O, E>(env: Environment<O, E>, s: State<O, E>) {
    (s.cancelled ==> exists t :: env.cancelledAt(t)) && (s.expired ==> exists t :: env.expiredAt(t))
  }

  /** A trace of the state machine, every event of which the environment accounts for. */
  ghost predicate Traced<O, E>(g: Graph, max: nat, env: Environment<O, E>, states: seq<State<O, E>>,
                               events: seq<Event<O, E>>) {
    && Run(g, max, states, events)
    && StartsPrescribed(env, states[0])
    && forall i: nat | i < |events| :: PrescribedAt(g, env, states, events, i)
  }

  ghost predicate PrescribedAt<O, E>(g: Graph, env: Environment<O, E>, states: seq<State<O, E>>,
                                     events: seq<Event<O, E>>, i: nat)
    requires i < |events| < |states|
  {
    Prescribed(g, env, states[i], events[i])
  }

  lemma TraceExtends<O, E>(g: Graph, max: nat, env: Environment<O, E>, states: seq<State<O, E>>,
                           events: seq<Event<O, E>>, e: Event<O, E>)
    requires Traced(g, max, env, states, events)
    requires Enabled(g, max, states[|events|], e) && Prescribed(g, env, states[|events|], e)
    ensures Traced(g, max, env, states + [After(g, max, states[|events|], e)], events + [e])
  {
    RunExtends(g, max, states, events, e);
    var states', events' := states + [After(g, max, states[|events|], e)], events + [e];
    forall i: nat | i < |events'| ensures PrescribedAt(g, env, states', events', i) {
      assert i < |events| ==> PrescribedAt(g, env, states, events, i);
    }
  }

  lemma StartCoherent<O, E>(g: Graph, s: State<O, E>, remaining: map<StepId, nat>)
    requires Start(s) && Counts(g, {}, remaining)
    ensures Coherent(g, s, Vars(set x | x in remaining && remaining[x] == 0, map[], map[], [], remaining, s.stop))
  {
    assert s.outputs.Keys == {} && Dispatched(s) == {};
    forall x | x in g ensures remaining[x] == 0 <==> x in Waiting(g, s) {
      assert CountAt(g, {}, remaining, x);
      ZeroLeft(g[x], {});
    }
  }

  lemma SameWaiting<O, E>(g: Graph, s: State<O, E>, t: State<O, E>)
    requires s.calls == t.calls && s.outputs == t.outputs
    ensures Waiting(g, s) == Waiting(g, t)
  {
    assert Dispatched(s) == Dispatched(t);
  }

  lemma SignalCoherent<O, E>(g: Graph, max: nat, s: State<O, E>, v: Vars<O, E>, e: Event<O, E>)
    requires Coherent(g, s, v) && Enabled(g, max, s, e)
    requires e.Cancel? || e.Expire? || e.ObserveCancellation? || e.ObserveDeadline?
    ensures Coherent(g, After(g, max, s, e), v.(stopReason := After(g, max, s, e).stop))
  {
    SameWaiting(g, s, After(g, max, s, e));
  }

  ghost function DispatchedVars<O, E>(g: Graph, v: Vars<O, E>, x: StepId): Vars<O, E>
    requires x in g
  {
    v.(ready := v.ready - {x}, inFlight := v.inFlight[x := Call(x, Restrict(v.outputs, g[x]))])
  }

  lemma DispatchCoherent<O, E>(g: Graph, max: nat, s: State<O, E>, v: Vars<O, E>)
    requires Coherent(g, s, v) && v.ready != {} && |v.inFlight| < max
    requires s.stop.None? && !s.cancelled && !s.expired
    ensures Enabled(g, max, s, Dispatch)
    ensures Least(v.ready) in g && g[Least(v.ready)] <= s.outputs.Keys
    ensures Coherent(g, After(g, max, s, Dispatch), DispatchedVars(g, v, Least(v.ready)))
  {
    assert |s.inFlight| == |v.inFlight|;
    DispatchMirrors(g, max, s, v);
    DispatchTracks(g, max, s, v);
  }

  lemma DispatchMirrors<O, E>(g: Graph, max: nat, s: State<O, E>, v: Vars<O, E>)
    requires Mirrors(g, s, v) && v.ready == Waiting(g, s) && Enabled(g, max, s, Dispatch)
    ensures Mirrors(g, After(g, max, s, Dispatch), DispatchedVars(g, v, Least(v.ready)))
  {
  }

  lemma DispatchTracks<O, E>(g: Graph, max: nat, s: State<O, E>, v: Vars<O, E>)
    requires Tracks(g, s, v) && Enabled(g, max, s, Dispatch)
    ensures Tracks(g, After(g, max, s, Dispatch), DispatchedVars(g, v, Least(v.ready)))
  {
    DispatchedNotWaiting(g, max, s);
  }

  lemma DispatchedNotWaiting<O, E>(g: Graph, max: nat, s: State<O, E>)
    requires Enabled(g, max, s, Dispatch)
    ensures Waiting(g, After(g, max, s, Dispatch)) == Waiting(g, s) - {Least(Waiting(g, s))}
  {
    var t := After(g, max, s, Dispatch);
    OrderAppend(s.calls, t.calls[|s.calls|]);
    assert Dispatched(t) == Dispatched(s) + {Least(Waiting(g, s))};
  }

  /** The in-flight entry of a settled step goes away; a completed one's output appears. */
  ghost function SettledVars<O, E>(v: Vars<O, E>, x: StepId): Vars<O, E> {
    v.(inFlight := v.inFlight - {x})
  }

  ghost function CompletedVars<O, E>(v: Vars<O, E>, x: StepId, o: O): Vars<O, E> {
    SettledVars(v, x).(outputs := v.outputs[x := o])
  }

  lemma FailureCoherent<O, E>(g: Graph, max: nat, s: State<O, E>, v: Vars<O, E>, x: StepId, error: E)
    requires Coherent(g, s, v) && x in v.inFlight
    ensures Coherent(g, After(g, max, s, SettleErr(x, error)),
                     SettledVars(v, x).(failures := v.failures + [StepFailure(x, error)],
                                        stopReason := if v.stopReason.None? then Some(StepFailed) else v.stopReason))
  {
  }

  lemma CompletionMirrors<O, E>(g: Graph, max: nat, s: State<O, E>, v: Vars<O, E>, x: StepId, o: O)
    requires Inv(g, max, s) && Mirrors(g, s, v) && x in v.inFlight
    ensures Mirrors(g, After(g, max, s, SettleOk(x, o)), CompletedVars(v, x, o))
  {
    StillRestricted(g, max, s, x, o);
  }

  lemma LateCoherent<O, E>(g: Graph, max: nat, s: State<O, E>, v: Vars<O, E>, x: StepId, o: O)
    requires Inv(g, max, s) && Coherent(g, s, v) && x in v.inFlight && v.stopReason.Some?
    ensures Coherent(g, After(g, max, s, SettleOk(x, o)), CompletedVars(v, x, o))
  {
    CompletionMirrors(g, max, s, v, x, o);
  }

  /** What a settling step may rely on. */
  lemma InFlightCall<O, E>(g: Graph, max: nat, s: State<O, E>, v: Vars<O, E>, x: StepId)
    requires Inv(g, max, s) && Coherent(g, s, v) && x in v.inFlight
    ensures x in s.inFlight && x in g && x !in s.outputs && v.inFlight[x] == Call(x, Restrict(s.outputs, g[x]))
    ensures v.stopReason.None? ==> Counts(g, s.outputs.Keys, v.remaining)
  {
    assert OneFate(s, x);
  }

  lemma CompletionCoherent<O, E>(g: Graph, max: nat, s: State<O, E>, v: Vars<O, E>, x: StepId, o: O,
                                 remaining': map<StepId, nat>, ready': set<StepId>)
    requires Inv(g, max, s) && Coherent(g, s, v) && v.stopReason.None? && x in v.inFlight
    requires Counts(g, s.outputs.Keys + {x}, remaining')
    requires Admits(g, s.outputs.Keys + {x}, x, v.ready, ready')
    ensures Coherent(g, After(g, max, s, SettleOk(x, o)),
                     Vars(ready', v.inFlight - {x}, v.outputs[x := o], v.failures, remaining', v.stopReason))
  {
    CompletionMirrors(g, max, s, v, x, o);
    InFlightCall(g, max, s, v, x);
    CompletionTracks(g, max, s, v, x, o, remaining', ready');
  }

  lemma CompletionTracks<O, E>(g: Graph, max: nat, s: State<O, E>, v: Vars<O, E>, x: StepId, o: O,
                               remaining': map<StepId, nat>, ready': set<StepId>)
    requires Inv(g, max, s) && Tracks(g, s, v) && x in s.inFlight && x in g && x !in s.outputs
    requires Counts(g, s.outputs.Keys + {x}, remaining')
    requires Admits(g, s.outputs.Keys + {x}, x, v.ready, ready')
    ensures Tracks(g, After(g, max, s, SettleOk(x, o)),
                   Vars(ready', v.inFlight - {x}, v.outputs[x := o], v.failures, remaining', v.stopReason))
  {
    assert After(g, max, s, SettleOk(x, o)).outputs.Keys == s.outputs.Keys + {x};
    WaitingGrows(g, max, s, x, o);
  }

  lemma StillRestricted<O, E>(g: Graph, max: nat, s: State<O, E>, x: StepId, o: O)
    requires Inv(g, max, s) && x in s.inFlight
    ensures x in g && x !in s.outputs
    ensures forall y | y in s.inFlight && y in g :: Restrict(s.outputs[x := o], g[y]) == Restrict(s.outputs, g[y])
  {
    assert OneFate(s, x);
    CalledNeeds(g, max, s, x);
    forall y | y in s.inFlight && y in g ensures Restrict(s.outputs[x := o], g[y]) == Restrict(s.outputs, g[y]) {
      assert OneFate(s, y);
      CalledNeeds(g, max, s, y);
    }
  }

  lemma CalledNeeds<O, E>(g: Graph, max: nat, s: State<O, E>, y: StepId)
    requires Inv(g, max, s) && y in Dispatched(s)
    ensures y in g && g[y] <= s.outputs.Keys
  {
    var i :| 0 <= i < |s.calls| && Order(s.calls)[i] == y;
    assert CallSoundAt(g, s.outputs, s.calls, i);
  }

  lemma WaitingGrows<O, E>(g: Graph, max: nat, s: State<O, E>, x: StepId, o: O)
    requires Inv(g, max, s) && x in s.inFlight && x in g && x !in s.outputs
    ensures Waiting(g, After(g, max, s, SettleOk(x, o)))
         == Waiting(g, s) + Unlocked(g, s.outputs.Keys + {x}, Successors(g, x))
  {
    var t := After(g, max, s, SettleOk(x, o));
    assert t.outputs.Keys == s.outputs.Keys + {x};
    forall y | y in g
      ensures x in g[y] ==> y !in Dispatched(s)
      ensures x !in g[y] ==> (g[y] <= t.outputs.Keys <==> g[y] <= s.outputs.Keys)
    {
      if y in Dispatched(s) {
        CalledNeeds(g, max, s, y);
      }
      if x !in g[y] {
      }
    }
  }

  // ---------------------------------------------------------------------------------------------
  // The runner
  // ---------------------------------------------------------------------------------------------

  datatype Trace<O, E> = Trace(states: seq<State<O, E>>, events: seq<Event<O, E>>)

  /** Everything that stays fixed for the length of a run. */
  datatype Setup<J, !O, !E> = Setup(definition: WorkflowDefinition<J>, maxConcurrency: nat, env: Environment<O, E>,
                                    outgoing: map<StepId, seq<StepId>>)

  ghost function Graph<J, O, E>(u: Setup<J, O, E>): Graph {
    GraphOf(u.definition.steps)
  }

  ghost predicate Sensible<J, O, E>(u: Setup<J, O, E>) {
    Valid(u.definition) && u.maxConcurrency > 0 && Honest(u.env) && Lists(Graph(u), u.outgoing)
  }

  ghost function Now<O, E>(trace: Trace<O, E>): State<O, E>
    requires trace.states != []
  {
    trace.states[|trace.states| - 1]
  }

  /** The variables are those of the last state of a run the environment accounts for. */
  ghost predicate Running<J, O, E>(u: Setup<J, O, E>, v: Vars<O, E>, now: nat, trace: Trace<O, E>) {
    && |trace.states| == |trace.events| + 1
    && Traced(Graph(u), u.maxConcurrency, u.env, trace.states, trace.events)
    && Inv(Graph(u), u.maxConcurrency, Now(trace))
    && Coherent(Graph(u), Now(trace), v)
    && (Now(trace).cancelled ==> u.env.cancelledAt(now)) && (Now(trace).expired ==> u.env.expiredAt(now))
  }

  ghost function Left<J, O, E>(u: Setup<J, O, E>, trace: Trace<O, E>): nat
    requires trace.states != []
  {
    Remaining(Graph(u), Now(trace))
  }

  ghost function Record<J, O, E>(u: Setup<J, O, E>, trace: Trace<O, E>, e: Event<O, E>): Trace<O, E>
    requires trace.states != [] && Enabled(Graph(u), u.maxConcurrency, Now(trace), e)
  {
    Trace(trace.states + [After(Graph(u), u.maxConcurrency, Now(trace), e)], trace.events + [e])
  }

  lemma RecordedNow<J, O, E>(u: Setup<J, O, E>, trace: Trace<O, E>, e: Event<O, E>)
    requires trace.states != [] && Enabled(Graph(u), u.maxConcurrency, Now(trace), e)
    ensures Now(Record(u, trace, e)) == After(Graph(u), u.maxConcurrency, Now(trace), e)
  {
  }

  lemma RecordedLeft<J, O, E>(u: Setup<J, O, E>, trace: Trace<O, E>, e: Event<O, E>)
    requires trace.states != [] && Inv(Graph(u), u.maxConcurrency, Now(trace))
      && Enabled(Graph(u), u.maxConcurrency, Now(trace), e)
    ensures if FromRunner(e) then Left(u, Record(u, trace, e)) < Left(u, trace)
            else Left(u, Record(u, trace, e)) == Left(u, trace)
  {
    RecordedNow(u, trace, e);
    EventsRunOut(Graph(u), u.maxConcurrency, Now(trace), e, After(Graph(u), u.maxConcurrency, Now(trace), e));
  }

  lemma RecordedRunning<J, O, E>(u: Setup<J, O, E>, v: Vars<O, E>, now: nat, trace: Trace<O, E>, e: Event<O, E>,
                                 v': Vars<O, E>, now': nat)
    requires Honest(u.env) && Running(u, v, now, trace) && now <= now'
    requires Enabled(Graph(u), u.maxConcurrency, Now(trace), e) && Prescribed(Graph(u), u.env, Now(trace), e)
    requires Coherent(Graph(u), After(Graph(u), u.maxConcurrency, Now(trace), e), v')
    requires (e.Cancel? ==> u.env.cancelledAt(now')) && (e.Expire? ==> u.env.expiredAt(now'))
    ensures Running(u, v', now', Record(u, trace, e))
  {
    RecordedNow(u, trace, e);
    TraceExtends(Graph(u), u.maxConcurrency, u.env, trace.states, trace.events, e);
    InvStep(Graph(u), u.maxConcurrency, Now(trace), e, After(Graph(u), u.maxConcurrency, Now(trace), e));
  }

  lemma Recorded<J, O, E>(u: Setup<J, O, E>, v: Vars<O, E>, now: nat, trace: Trace<O, E>, e: Event<O, E>,
                          v': Vars<O, E>, now': nat)
    requires Honest(u.env) && Running(u, v, now, trace) && now <= now'
    requires Enabled(Graph(u), u.maxConcurrency, Now(trace), e) && Prescribed(Graph(u), u.env, Now(trace), e)
    requires Coherent(Graph(u), After(Graph(u), u.maxConcurrency, Now(trace), e), v')
    requires (e.Cancel? ==> u.env.cancelledAt(now')) && (e.Expire? ==> u.env.expiredAt(now'))
    ensures Running(u, v', now', Record(u, trace, e))
    ensures Now(Record(u, trace, e)) == After(Graph(u), u.maxConcurrency, Now(trace), e)
    ensures if FromRunner(e) then Left(u, Record(u, trace, e)) < Left(u, trace)
            else Left(u, Record(u, trace, e)) == Left(u, trace)
  {
    RecordedRunning(u, v, now, trace, e, v', now');
    RecordedNow(u, trace, e);
    RecordedLeft(u, trace, e);
  }

  lemma TimePasses<J, O, E>(u: Setup<J, O, E>, v: Vars<O, E>, now: nat, trace: Trace<O, E>)
    requires Sensible(u) && Running(u, v, now, trace)
    ensures Running(u, v, now + 1, trace)
  {
    assert u.env.cancelledAt(now) ==> u.env.cancelledAt(now + 1);
    assert u.env.expiredAt(now) ==> u.env.expiredAt(now + 1);
  }

  /** Look at the caller's token. */
  method ReadCancellation<J, O, E>(u: Setup<J, O, E>, ghost v: Vars<O, E>, now: nat, ghost trace: Trace<O, E>)
    returns (cancelled: bool, now': nat, ghost trace': Trace<O, E>)
    requires Sensible(u) && Running(u, v, now, trace)
    ensures Running(u, v, now', trace') && cancelled == Now(trace').cancelled
    ensures Now(trace') == Now(trace).(cancelled := cancelled) && Left(u, trace') == Left(u, trace)
  {
    now' := now + 1;
    cancelled, trace' := u.env.cancelledAt(now'), trace;
    TimePasses(u, v, now, trace);
    if cancelled && !Now(trace).cancelled {
      SignalCoherent(Graph(u), u.maxConcurrency, Now(trace), v, Cancel);
      Recorded(u, v, now, trace, Cancel, v, now');
      trace' := Record(u, trace, Cancel);
    }
  }

  /** Look at the clock. */
  method ReadDeadline<J, O, E>(u: Setup<J, O, E>, ghost v: Vars<O, E>, now: nat, ghost trace: Trace<O, E>)
    returns (expired: bool, now': nat, ghost trace': Trace<O, E>)
    requires Sensible(u) && Running(u, v, now, trace)
    ensures Running(u, v, now', trace') && expired == Now(trace').expired
    ensures Now(trace') == Now(trace).(expired := expired) && Left(u, trace') == Left(u, trace)
  {
    now' := now + 1;
    expired, trace' := u.env.expiredAt(now'), trace;
    TimePasses(u, v, now, trace);
    if expired && !Now(trace).expired {
      SignalCoherent(Graph(u), u.maxConcurrency, Now(trace), v, Expire);
      Recorded(u, v, now, trace, Expire, v, now');
      trace' := Record(u, trace, Expire);
    }
  }

  lemma Stopped<J, O, E>(u: Setup<J, O, E>, v: Vars<O, E>, now: nat, trace: Trace<O, E>, e: Event<O, E>)
    requires Sensible(u) && Running(u, v, now, trace) && v.stopReason.None?
    requires (e == ObserveCancellation && Now(trace).cancelled) || (e == ObserveDeadline && Now(trace).expired)
    ensures Enabled(Graph(u), u.maxConcurrency, Now(trace), e)
    ensures var reason := if e.ObserveDeadline? then DeadlinePassed else ExternalCancellation;
      Running(u, v.(stopReason := Some(reason)), now, Record(u, trace, e))
        && Left(u, Record(u, trace, e)) < Left(u, trace)
  {
    SignalCoherent(Graph(u), u.maxConcurrency, Now(trace), v, e);
    Recorded(u, v, now, trace, e, v.(stopReason := After(Graph(u), u.maxConcurrency, Now(trace), e).stop), now);
  }

  /** Latch the stop reason if the token or the clock calls for it. */
  method CheckStop<J, O, E>(u: Setup<J, O, E>, v: Vars<O, E>, now: nat, ghost trace: Trace<O, E>)
    returns (v': Vars<O, E>, now': nat, ghost trace': Trace<O, E>)
    requires Sensible(u) && Running(u, v, now, trace) && v.stopReason.None?
    ensures Running(u, v', now', trace') && v'.inFlight == v.inFlight
    ensures v'.stopReason.None? ==> v' == v && !Now(trace').cancelled && !Now(trace').expired
    ensures Left(u, trace') <= Left(u, trace) && (v'.stopReason.Some? ==> Left(u, trace') < Left(u, trace))
  {
    var cancelled, expired;
    v', cancelled, now', trace' := v, false, now, trace;
    cancelled, now', trace' := ReadCancellation(u, v, now', trace');
    if cancelled {
      Stopped(u, v, now', trace', ObserveCancellation);
      v', trace' := v.(stopReason := Some(ExternalCancellation)), Record(u, trace', ObserveCancellation);
      return;
    }
    expired, now', trace' := ReadDeadline(u, v, now', trace');
    if expired {
      Stopped(u, v, now', trace', ObserveDeadline);
      v', trace' := v.(stopReason := Some(DeadlinePassed)), Record(u, trace', ObserveDeadline);
    }
  }

  /** Hand the least ready step to the dispatcher with its direct dependencies' outputs. */
  method Launch<J, O, E>(u: Setup<J, O, E>, v: Vars<O, E>, ghost now: nat, ghost trace: Trace<O, E>)
    returns (v': Vars<O, E>, ghost trace': Trace<O, E>)
    requires Sensible(u) && Running(u, v, now, trace)
    requires v.stopReason.None? && !Now(trace).cancelled && !Now(trace).expired
    requires |v.inFlight| < u.maxConcurrency && v.ready != {}
    ensures Running(u, v', now, trace') && Left(u, trace') < Left(u, trace)
  {
    DispatchCoherent(Graph(u), u.maxConcurrency, Now(trace), v);
    var x := Least(v.ready);
    var call := Call(x, Restrict(v.outputs, Elements(u.definition.steps[x].needs)));
    v' := v.(ready := v.ready - {x}, inFlight := v.inFlight[x := call]);
    Recorded(u, v, now, trace, Dispatch, v', now);
    trace' := Record(u, trace, Dispatch);
  }

  /** Admit ready steps while there is capacity, looking at the token and the clock each time. */
  method Fill<J, O, E>(u: Setup<J, O, E>, v: Vars<O, E>, now: nat, ghost trace: Trace<O, E>)
    returns (v': Vars<O, E>, now': nat, ghost trace': Trace<O, E>)
    requires Sensible(u) && Running(u, v, now, trace)
    ensures Running(u, v', now', trace') && Left(u, trace') <= Left(u, trace)
    ensures v'.inFlight == map[] ==> Finished(Graph(u), Now(trace'))
    ensures v'.stopReason.None? ==> |v'.inFlight| >= u.maxConcurrency || Waiting(Graph(u), Now(trace')) == {}
  {
    v', now', trace' := v, now, trace;
    while v'.stopReason.None? && |v'.inFlight| < u.maxConcurrency
      invariant Running(u, v', now', trace') && Left(u, trace') <= Left(u, trace)
      decreases Left(u, trace')
    {
      v', now', trace' := CheckStop(u, v', now', trace');
      if v'.stopReason.Some? {
        break;
      }
      if v'.ready == {} {
        if v'.inFlight == map[] {
        }
        return;
      }
      v', trace' := Launch(u, v', now', trace');
    }
  }

  /** Await one settlement, unless cancellation or the deadline is noticed first. */
  method AwaitOne<J, O, E>(u: Setup<J, O, E>, v: Vars<O, E>, now: nat, ghost trace: Trace<O, E>)
    returns (v': Vars<O, E>, now': nat, ghost trace': Trace<O, E>)
    requires Sensible(u) && Running(u, v, now, trace) && v.inFlight != map[]
    ensures Running(u, v', now', trace') && Left(u, trace') < Left(u, trace)
  {
    var token := true;
    v', now', trace' := v, now, trace;
    if v.stopReason.None? {
      v', now', trace' := CheckStop(u, v, now, trace);
      if v'.stopReason.Some? {
        return;
      }
      token, now', trace' := ReadCancellation(u, v', now', trace');
    }
    TimePasses(u, v', now', trace');
    now' := now' + 1;
    assert v'.inFlight.Keys != {} && u.env.completes(now', v'.inFlight.Keys) in v'.inFlight.Keys;
    var step := u.env.completes(now', v'.inFlight.Keys);
    var settlement := DispatchStep(u.env, now', v'.inFlight[step], token);
    v', trace' := Settle(u, v', now', trace', step, settlement);
  }

  method Settle<J, O, E>(u: Setup<J, O, E>, v: Vars<O, E>, ghost now: nat, ghost trace: Trace<O, E>,
                         step: StepId, settlement: Settlement<O, E>)
    returns (v': Vars<O, E>, ghost trace': Trace<O, E>)
    requires Sensible(u) && Running(u, v, now, trace) && step in v.inFlight
    requires settlement.NotCalled? ==> Now(trace).cancelled || v.stopReason.Some?
    requires settlement.Settled? ==> exists t :: Returned(u.env, t, v.inFlight[step]) == settlement.result
    ensures Running(u, v', now, trace') && Left(u, trace') < Left(u, trace)
  {
    InFlightCall(Graph(u), u.maxConcurrency, Now(trace), v, step);
    match settlement {
      case NotCalled =>
        v' := v.(inFlight := v.inFlight - {step});
        Recorded(u, v, now, trace, SettleNotCalled(step), v', now);
        trace' := Record(u, trace, SettleNotCalled(step));
      case Settled(Ok(output)) =>
        v', trace' := Complete(u, v, now, trace, step, output);
      case Settled(Err(error)) =>
        FailureCoherent(Graph(u), u.maxConcurrency, Now(trace), v, step, error);
        v' := v.(inFlight := v.inFlight - {step}, failures := v.failures + [StepFailure(step, error)],
                 stopReason := if v.stopReason.None? then Some(StepFailed) else v.stopReason);
        Recorded(u, v, now, trace, SettleErr(step, error), v', now);
        trace' := Record(u, trace, SettleErr(step, error));
    }
  }

  /** A completion is always kept; it unlocks successors only while the runner is still running. */
  method Complete<J, O, E>(u: Setup<J, O, E>, v: Vars<O, E>, ghost now: nat, ghost trace: Trace<O, E>,
                           step: StepId, output: O)
    returns (v': Vars<O, E>, ghost trace': Trace<O, E>)
    requires Sensible(u) && Running(u, v, now, trace) && step in v.inFlight
    requires exists t :: Returned(u.env, t, v.inFlight[step]) == Ok(output)
    ensures Running(u, v', now, trace') && Left(u, trace') < Left(u, trace)
  {
    InFlightCall(Graph(u), u.maxConcurrency, Now(trace), v, step);
    if v.stopReason.None? {
      var remaining, ready :=
        ReleaseSuccessors(Graph(u), Now(trace).outputs.Keys, step, u.outgoing, v.remaining, v.ready);
      CompletionCoherent(Graph(u), u.maxConcurrency, Now(trace), v, step, output, remaining, ready);
      v' := Vars(ready, v.inFlight - {step}, v.outputs[step := output], v.failures, remaining, v.stopReason);
    } else {
      LateCoherent(Graph(u), u.maxConcurrency, Now(trace), v, step, output);
      v' := v.(inFlight := v.inFlight - {step}, outputs := v.outputs[step := output]);
    }
    Recorded(u, v, now, trace, SettleOk(step, output), v', now);
    trace' := Record(u, trace, SettleOk(step, output));
  }

  // ---------------------------------------------------------------------------------------------
  // The whole run and what it reports
  // ---------------------------------------------------------------------------------------------

  function Report<J, O, E>(d: WorkflowDefinition<J>, v: Vars<O, E>): Result<WorkflowOutcome<O>, WorkflowFailure<O, E>> {
    match v.stopReason
    case Some(ExternalCancellation) => Err(Cancelled(v.outputs, SortByStep(v.failures)))
    case Some(DeadlinePassed) => Err(DeadlineExceeded(v.outputs, SortByStep(v.failures)))
    case Some(StepFailed) => Err(StepsFailed(v.outputs, SortByStep(v.failures)))
    case None =>
      if |v.outputs| != |d.steps| then
        Err(Incomplete(v.outputs, Ascending(set x | x in d.steps && x !in v.outputs)))
      else
        Ok(WorkflowOutcome(v.outputs, Restrict(v.outputs, Leaves(GraphOf(d.steps)))))
  }

  /** What a caller may conclude from a result about the run that produced it. */
  ghost predicate Reports<J, O, E>(d: WorkflowDefinition<J>, s: State<O, E>,
                                   r: Result<WorkflowOutcome<O>, WorkflowFailure<O, E>>) {
    match r
    case Ok(outcome) =>
      && s.stop.None? && outcome.outputs == s.outputs && s.outputs.Keys == d.steps.Keys
      && outcome.leafOutputs.Keys == Leaves(GraphOf(d.steps))
      && forall x | x in outcome.leafOutputs :: outcome.leafOutputs[x] == s.outputs[x]
    case Err(Cancelled(completed, failures)) =>
      s.stop == Some(ExternalCancellation) && completed == s.outputs && ListsFailures(failures, s.failures)
    case Err(DeadlineExceeded(completed, failures)) =>
      s.stop == Some(DeadlinePassed) && completed == s.outputs && ListsFailures(failures, s.failures)
    case Err(StepsFailed(completed, failures)) =>
      s.stop == Some(StepFailed) && completed == s.outputs && ListsFailures(failures, s.failures)
    case Err(Incomplete(_, _)) => false
  }

  ghost predicate ListsFailures<E>(reported: seq<StepFailure<E>>, observed: seq<StepFailure<E>>) {
    SortedByStep(reported) && multiset(reported) == multiset(observed)
  }

  lemma FinishedReports<J, O, E>(u: Setup<J, O, E>, v: Vars<O, E>, now: nat, trace: Trace<O, E>)
    requires Sensible(u) && Running(u, v, now, trace) && Finished(Graph(u), Now(trace))
    ensures Reports(u.definition, Now(trace), Report(u.definition, v))
  {
    CompleteUnlessStopped(u.definition, u.maxConcurrency, Now(trace));
    ReportsState(u.definition, Now(trace), v);
  }

  lemma CompleteUnlessStopped<J, O, E>(d: WorkflowDefinition<J>, max: nat, s: State<O, E>)
    requires Valid(d) && Inv(GraphOf(d.steps), max, s) && Finished(GraphOf(d.steps), s)
    ensures s.stop.None? ==> s.outputs.Keys == d.steps.Keys
  {
    if s.stop.None? {
      FinishedWithoutReasonIsComplete(GraphOf(d.steps), d.topologicalOrder, max, s);
    }
  }

  lemma ReportsState<J, O, E>(d: WorkflowDefinition<J>, s: State<O, E>, v: Vars<O, E>)
    requires s.outputs == v.outputs && s.failures == v.failures && s.stop == v.stopReason
    requires Distinct(FailedSteps(s.failures)) && (s.stop.None? ==> s.outputs.Keys == d.steps.Keys)
    ensures Reports(d, s, Report(d, v))
  {
    FailuresReportedInOrder(v.failures);
    assert |v.outputs| == |v.outputs.Keys| && |d.steps| == |d.steps.Keys|;
  }

  lemma StartRunning<J, O, E>(u: Setup<J, O, E>, remaining: map<StepId, nat>, cancelled: bool, expired: bool)
    requires Counts(Graph(u), {}, remaining)
    requires (cancelled ==> u.env.cancelledAt(1)) && (expired ==> u.env.expiredAt(1)) && !(cancelled && expired)
    ensures var stop :=
      if cancelled then Some(ExternalCancellation) else if expired then Some(DeadlinePassed) else None;
      Running(u, Vars(set x | x in remaining && remaining[x] == 0, map[], map[], [], remaining, stop), 1,
              Trace([State([], {}, map[], [], {}, stop, cancelled, expired)], []))
  {
    var stop := if cancelled then Some(ExternalCancellation) else if expired then Some(DeadlinePassed) else None;
    var start: State<O, E> := State([], {}, map[], [], {}, stop, cancelled, expired);
    StartCoherent(Graph(u), start, remaining);
  }

  // ---------------------------------------------------------------------------------------------
  // What a result says by itself
  // ---------------------------------------------------------------------------------------------

  /** Some settlement of `x`, called with what its dependencies returned, was `result`. */
  ghost predicate Answered<O, E>(g: Graph, env: Environment<O, E>, outputs: map<StepId, O>, x: StepId,
                                 result: Result<O, E>) {
    x in g && g[x] <= outputs.Keys && exists t :: Returned(env, t, Call(x, Restrict(outputs, g[x]))) == result
  }

  /** Outputs and failures are what steps returned when called with the outputs of all their direct
      dependencies, and no step is in both. */
  ghost predicate Justified<O, E>(g: Graph, env: Environment<O, E>, outputs: map<StepId, O>,
                                  failures: seq<StepFailure<E>>) {
    && (forall x | x in outputs :: Answered(g, env, outputs, x, Ok(outputs[x])))
    && (forall f | f in failures :: f.step !in outputs && Answered(g, env, outputs, f.step, Err(f.error)))
  }

  /** A result names every output of a complete run and those of the leaves, or a reason that did
      occur together with justified outputs and failures; it is never incomplete. */
  ghost predicate Earned<J, O, E>(d: WorkflowDefinition<J>, env: Environment<O, E>,
                                  r: Result<WorkflowOutcome<O>, WorkflowFailure<O, E>>) {
    var g := GraphOf(d.steps);
    match r
    case Ok(outcome) =>
      && outcome.outputs.Keys == d.steps.Keys && Justified(g, env, outcome.outputs, [])
      && outcome.leafOutputs.Keys == Leaves(g)
      && forall x | x in outcome.leafOutputs :: outcome.leafOutputs[x] == outcome.outputs[x]
    case Err(Cancelled(completed, failures)) =>
      (exists t :: env.cancelledAt(t)) && SortedByStep(failures) && Justified(g, env, completed, failures)
    case Err(DeadlineExceeded(completed, failures)) =>
      (exists t :: env.expiredAt(t)) && SortedByStep(failures) && Justified(g, env, completed, failures)
    case Err(StepsFailed(completed, failures)) =>
      failures != [] && SortedByStep(failures) && Justified(g, env, completed, failures)
    case Err(Incomplete(_, _)) => false
  }

  /** A stop reason is one that occurred. */
  ghost predicate Reasoned<O, E>(env: Environment<O, E>, s: State<O, E>) {
    && (s.cancelled ==> exists t :: env.cancelledAt(t)) && (s.expired ==> exists t :: env.expiredAt(t))
    && (s.stop == Some(ExternalCancellation) ==> s.cancelled) && (s.stop == Some(DeadlinePassed) ==> s.expired)
    && (s.stop == Some(StepFailed) ==> s.failures != [])
  }

  lemma {:induction false} RunIsReasoned<O, E>(g: Graph, max: nat, env: Environment<O, E>,
                                               states: seq<State<O, E>>, events: seq<Event<O, E>>, i: nat)
    requires Traced(g, max, env, states, events) && i < |states|
    ensures Reasoned(env, states[i])
  {
    if i > 0 {
      RunIsReasoned(g, max, env, states, events, i - 1);
      assert RunStep(g, max, states, events, i - 1);
      assert PrescribedAt(g, env, states, events, i - 1);
    }
  }

  lemma {:induction false} RunIsJustified<O, E>(g: Graph, max: nat, env: Environment<O, E>,
                                                states: seq<State<O, E>>, events: seq<Event<O, E>>, i: nat)
    requires Traced(g, max, env, states, events) && i < |states|
    ensures Justified(g, env, states[i].outputs, states[i].failures)
  {
    if i > 0 {
      RunIsJustified(g, max, env, states, events, i - 1);
      RunKeepsInv(g, max, states, events, i - 1);
      assert RunStep(g, max, states, events, i - 1);
      assert PrescribedAt(g, env, states, events, i - 1);
      StepJustified(g, max, env, states[i - 1], events[i - 1]);
    }
  }

  lemma StepJustified<O, E>(g: Graph, max: nat, env: Environment<O, E>, s: State<O, E>, e: Event<O, E>)
    requires Inv(g, max, s) && Enabled(g, max, s, e) && Prescribed(g, env, s, e)
      && Justified(g, env, s.outputs, s.failures)
    ensures Justified(g, env, After(g, max, s, e).outputs, After(g, max, s, e).failures)
  {
    match e {
      case SettleOk(x, o) => OutputJustified(g, max, env, s, x, o);
      case SettleErr(x, error) => FailureJustified(g, max, env, s, x, error);
      case _ =>
    }
  }

  lemma FailureJustified<O, E>(g: Graph, max: nat, env: Environment<O, E>, s: State<O, E>, x: StepId, error: E)
    requires Inv(g, max, s) && x in s.inFlight && Justified(g, env, s.outputs, s.failures)
    requires Prescribed(g, env, s, SettleErr(x, error))
    ensures Justified(g, env, s.outputs, s.failures + [StepFailure(x, error)])
  {
    assert OneFate(s, x);
    CalledNeeds(g, max, s, x);
    assert Answered(g, env, s.outputs, x, Err(error));
  }

  lemma OutputJustified<O, E>(g: Graph, max: nat, env: Environment<O, E>, s: State<O, E>, x: StepId, o: O)
    requires Inv(g, max, s) && x in s.inFlight && Justified(g, env, s.outputs, s.failures)
    requires Prescribed(g, env, s, SettleOk(x, o))
    ensures Justified(g, env, s.outputs[x := o], s.failures)
  {
    var after := s.outputs[x := o];
    assert OneFate(s, x);
    CalledNeeds(g, max, s, x);
    assert Answered(g, env, s.outputs, x, Ok(o));
    forall y, result | Answered(g, env, s.outputs, y, result) ensures Answered(g, env, after, y, result) {
      assert Restrict(after, g[y]) == Restrict(s.outputs, g[y]);
    }
    forall f | f in s.failures ensures f.step != x {
      var k :| 0 <= k < |s.failures| && s.failures[k] == f;
      assert FailedSteps(s.failures)[k] == f.step;
    }
  }

  /** What the state machine reports is earned. */
  lemma ReportsAreEarned<J, O, E>(d: WorkflowDefinition<J>, max: nat, env: Environment<O, E>, trace: Trace<O, E>,
                                  r: Result<WorkflowOutcome<O>, WorkflowFailure<O, E>>)
    requires Traced(GraphOf(d.steps), max, env, trace.states, trace.events) && Reports(d, Now(trace), r)
    ensures Earned(d, env, r)
  {
    var g, n := GraphOf(d.steps), |trace.events|;
    RunIsReasoned(g, max, env, trace.states, trace.events, n);
    RunIsJustified(g, max, env, trace.states, trace.events, n);
    if r.Err? && !r.error.Incomplete? {
      var reported := if r.error.StepsFailed? then r.error.failures else r.error.settledFailures;
      SameFailures(reported, Now(trace).failures);
    }
  }

  lemma SameFailures<E>(reported: seq<StepFailure<E>>, observed: seq<StepFailure<E>>)
    requires multiset(reported) == multiset(observed)
    ensures forall f :: f in reported <==> f in observed
    ensures reported == [] <==> observed == []
  {
    forall f ensures f in reported <==> f in observed {
      assert f in multiset(reported) <==> f in multiset(observed);
    }
    assert |multiset(reported)| == |multiset(observed)|;
  }

  /** Run a definition to its end. The loop ends because every pass uses up an event, and what it
      returns is what the state machine's final state means. */
  method Execute<J, O, E>(definition: WorkflowDefinition<J>, maxConcurrency: nat, env: Environment<O, E>)
    returns (r: Result<WorkflowOutcome<O>, WorkflowFailure<O, E>>, ghost trace: Trace<O, E>)
    requires Valid(definition) && maxConcurrency > 0 && Honest(env)
    ensures Traced(GraphOf(definition.steps), maxConcurrency, env, trace.states, trace.events)
    ensures Finished(GraphOf(definition.steps), Now(trace))
    ensures Reports(definition, Now(trace), r)
    ensures Earned(definition, env, r)
  {
    forall s | s in definition.steps ensures Ascends(definition.steps[s].needs) {
      assert InOrderAt(definition.steps, s);
    }
    var edges := CountEdges(GraphOf(definition.steps), definition.steps);
    var u := Setup(definition, maxConcurrency, env, edges.value.1);
    var remaining := edges.value.0;
    var cancelled := env.cancelledAt(0);
    var expired := !cancelled && env.expiredAt(1);
    var stop := if cancelled then Some(ExternalCancellation) else if expired then Some(DeadlinePassed) else None;
    var now: nat := 1;
    var v: Vars<O, E> := Vars(set x | x in remaining && remaining[x] == 0, map[], map[], [], remaining, stop);
    trace := Trace([State([], {}, map[], [], {}, stop, cancelled, expired)], []);
    StartRunning(u, remaining, cancelled, expired);
    while true
      invariant Running(u, v, now, trace)
      decreases Left(u, trace)
    {
      v, now, trace := Fill(u, v, now, trace);
      if v.inFlight == map[] {
        break;
      }
      v, now, trace := AwaitOne(u, v, now, trace);
    }
    FinishedReports(u, v, now, trace);
    r := Report(definition, v);
    ReportsAreEarned(definition, maxConcurrency, env, trace, r);
  }

  // ---------------------------------------------------------------------------------------------
  // What every execution promises
  // ---------------------------------------------------------------------------------------------

  /** If what a step returns depends only on the step and its dependencies' outputs, an execution
      that succeeds returns what evaluating the stable order returns, whatever its concurrency
      bound; and when nobody cancels and no deadline passes it succeeds exactly when every step of
      that evaluation does. */
  lemma ExecutionIsConfluent<J, O, E>(d: WorkflowDefinition<J>, max: nat, env: Environment<O, E>, f: Behaviour<O, E>,
                                      trace: Trace<O, E>, r: Result<WorkflowOutcome<O>, WorkflowFailure<O, E>>)
    requires Valid(d) && Traced(GraphOf(d.steps), max, env, trace.states, trace.events)
    requires Finished(GraphOf(d.steps), Now(trace)) && Reports(d, Now(trace), r)
    requires forall t, x, needs :: Returned(env, t, Call(x, needs)) == f(x, needs)
    ensures r.Ok? ==> r.value.outputs == Evaluate(GraphOf(d.steps), d.topologicalOrder, f)
    ensures (forall t :: !env.cancelledAt(t) && !env.expiredAt(t)) ==>
      (r.Ok? <==> Evaluate(GraphOf(d.steps), d.topologicalOrder, f).Keys == d.steps.Keys)
  {
    var g, states, events := GraphOf(d.steps), trace.states, trace.events;
    forall i | 0 <= i < |events| ensures SettlesBy(g, f, states[i], events[i]) {
      assert PrescribedAt(g, env, states, events, i);
    }
    if r.Ok? {
      CompleteRunsAgree(g, d.topologicalOrder, f, max, states, events);
    }
    if forall t :: !env.cancelledAt(t) && !env.expiredAt(t) {
      forall i | 0 <= i < |events| ensures FromRunner(events[i]) {
        assert PrescribedAt(g, env, states, events, i);
      }
      CompletesIffNothingFails(g, d.topologicalOrder, f, max, states, events);
    }
  }
}
