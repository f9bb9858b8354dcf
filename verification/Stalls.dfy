/** Calls in time: what the stalls of injected faults and the moment of a stop do to a call through a
    stack, and what depends on a launch stall coming after the inner call rather than before it. */
module Stalls {
  import opened Collections
  import opened Errors
  import opened Middleware

  /** Layers that look at the clock or spend time, and all the others. A watch is a deadline layer; `tie` says
      whether it notices a stop that coincides with the settlement, `elapsed` which reason it then reports. */
  datatype TimedLayer =
    | Watch(tie: bool, elapsed: bool)
    | StallBeforeLaunch(delay: nat)
    | HoldSettlement(delay: nat)
    | Timeless(layer: Layer)

  /** When the caller cancels and when the request's deadline passes. */
  datatype Times = Times(cancelAt: Option<nat>, deadline: Option<nat>)

  /** A provider and when it finishes, given when it is called and when its future is first polled. */
  datatype Worker = Worker(provider: Provider, finish: (nat, nat) -> nat)

  /** Whether a launch stall makes the inner call before it sleeps, as written, or after. */
  datatype Order = CallThenStall | StallThenCall

  /** How a call ended, when, and when the provider's `call` was made, if it was. */
  datatype TimedCall = TimedCall(madeAt: Option<nat>, settlement: Settlement, at: nat)

  predicate By(moment: Option<nat>, t: nat) {
    moment.Some? && moment.value <= t
  }

  /** Cancelled or past the deadline. */
  predicate StoppedBy(times: Times, t: nat) {
    By(times.cancelAt, t) || By(times.deadline, t)
  }

  /** The cancellation token is looked at before the deadline. */
  function EntryAt(times: Times, t: nat): Entry {
    if By(times.cancelAt, t) then AlreadyCancelled
    else if By(times.deadline, t) then AlreadyElapsed
    else Live
  }

  /** A watch polled from `pollAt` on notices a stop before the inner settlement at `settledAt`, or with it. */
  predicate Notices(times: Times, tie: bool, pollAt: nat, settledAt: nat) {
    if tie then StoppedBy(times, settledAt) else settledAt > pollAt && StoppedBy(times, settledAt - 1)
  }

  predicate CallsLate(order: Order, layer: TimedLayer) {
    order.StallThenCall? && layer.StallBeforeLaunch?
  }

  function InnerPollAt(layer: TimedLayer, pollAt: nat): nat {
    if layer.StallBeforeLaunch? then pollAt + layer.delay else pollAt
  }

  function InnerCallAt(order: Order, layer: TimedLayer, callAt: nat, pollAt: nat): nat {
    if CallsLate(order, layer) then InnerPollAt(layer, pollAt) else callAt
  }

  /** The layer as one call meets it that is made at `callAt`, polled from `pollAt` on, and settled inside
      at `settledAt`. */
  function Seen(layer: TimedLayer, times: Times, callAt: nat, pollAt: nat, settledAt: nat): Layer {
    match layer
    case Watch(tie, elapsed) =>
      Deadline(EntryAt(times, callAt),
               if !Notices(times, tie, pollAt, settledAt) then Undisturbed
               else if elapsed then ElapsedMeanwhile else CancelledMeanwhile)
    case StallBeforeLaunch(_) => InjectFaults(Some(DelayBeforeLaunch))
    case HoldSettlement(_) => InjectFaults(Some(DelaySettlement))
    case Timeless(layer) => layer
  }

  /** What a layer makes of the inner call's end; a panic of an inner call made late comes out of a future. */
  function PassedOn(order: Order, layer: TimedLayer, seen: Layer, inner: Settlement): Settlement {
    Passed(seen, if CallsLate(order, layer) && inner.PanicsInCall? then PanicsInFuture else inner)
  }

  /** A panic of the call itself is over before anything is polled; only a result is held. */
  function EndsAt(order: Order, layer: TimedLayer, pollAt: nat, inner: TimedCall): nat {
    if inner.settlement.PanicsInCall? && !CallsLate(order, layer) then pollAt
    else if layer.HoldSettlement? && inner.settlement.Settles? then inner.at + layer.delay
    else inner.at
  }

  /** One call through a stack, made at `callAt` and first polled at `pollAt`. */
  function InTime(order: Order, stack: seq<TimedLayer>, times: Times, worker: Worker, callAt: nat,
                  pollAt: nat): TimedCall {
    if stack == [] then
      TimedCall(Some(callAt), worker.provider.settlement,
                if worker.provider.settlement.PanicsInCall? then pollAt
                  else Later(pollAt, worker.finish(callAt, pollAt)))
    else if Refuses(Seen(stack[0], times, callAt, pollAt, pollAt)) then
      TimedCall(None, Failure(Refusal(Seen(stack[0], times, callAt, pollAt, pollAt))), pollAt)
    else
      var inner := InTime(order, stack[1..], times, worker, InnerCallAt(order, stack[0], callAt, pollAt),
                          InnerPollAt(stack[0], pollAt));
      TimedCall(inner.madeAt,
                PassedOn(order, stack[0], Seen(stack[0], times, callAt, pollAt, inner.at), inner.settlement),
                EndsAt(order, stack[0], pollAt, inner))
  }

  function Later(a: nat, b: nat): nat {
    if a < b then b else a
  }

  // ---------------------------------------------------------------------------------------------
  // The laws of untimed calls
  // ---------------------------------------------------------------------------------------------

  /** The stack as one call, made in the order written, meets it. */
  function SeenStack(stack: seq<TimedLayer>, times: Times, worker: Worker, callAt: nat, pollAt: nat): seq<Layer> {
    if stack == [] then []
    else
      var inner := InTime(CallThenStall, stack[1..], times, worker, callAt, InnerPollAt(stack[0], pollAt));
      [Seen(stack[0], times, callAt, pollAt, inner.at)]
      + SeenStack(stack[1..], times, worker, callAt, InnerPollAt(stack[0], pollAt))
  }

  /** Time only decides how each layer is met: a timed call ends as the call through the stack it meets, so
      every law of those calls holds of it. */
  lemma {:induction false} EndsAsSeen(stack: seq<TimedLayer>, times: Times, worker: Worker, callAt: nat, pollAt: nat)
    ensures var timed := InTime(CallThenStall, stack, times, worker, callAt, pollAt);
      Through(SeenStack(stack, times, worker, callAt, pollAt), worker.provider)
        == Call(timed.madeAt.Some?, timed.settlement)
    ensures |SeenStack(stack, times, worker, callAt, pollAt)| == |stack|
  {
    if stack != [] {
      EndsAsSeen(stack[1..], times, worker, callAt, InnerPollAt(stack[0], pollAt));
      var seen := SeenStack(stack, times, worker, callAt, pollAt);
      assert seen[1..] == SeenStack(stack[1..], times, worker, callAt, InnerPollAt(stack[0], pollAt));
    }
  }

  // ---------------------------------------------------------------------------------------------
  // When the provider is called
  // ---------------------------------------------------------------------------------------------

  /** No layer refuses for reasons other than time. */
  ghost predicate Open(stack: seq<TimedLayer>) {
    forall i | 0 <= i < |stack| :: stack[i].Timeless? ==> !Refuses(stack[i].layer)
  }

  /** How long the launch stalls of a stack last together, and whether there are any. */
  function Stalled(stack: seq<TimedLayer>): nat {
    if stack == [] then 0
    else (if stack[0].StallBeforeLaunch? then stack[0].delay else 0) + Stalled(stack[1..])
  }

  predicate HasStall(stack: seq<TimedLayer>) {
    exists i :: 0 <= i < |stack| && stack[i].StallBeforeLaunch?
  }

  predicate Watched(stack: seq<TimedLayer>) {
    exists i :: 0 <= i < |stack| && stack[i].Watch?
  }

  /** The layers around the innermost watch. */
  function AroundLastWatch(stack: seq<TimedLayer>): seq<TimedLayer> {
    if stack == [] || !Watched(stack[1..]) then [] else [stack[0]] + AroundLastWatch(stack[1..])
  }

  /** When a request gets past the given layers. */
  function ArrivesAt(order: Order, stack: seq<TimedLayer>, callAt: nat, pollAt: nat): nat {
    if order.StallThenCall? && HasStall(stack) then pollAt + Stalled(stack) else callAt
  }

  /** No watch turns the request away when it gets there; the innermost is the last to look. */
  predicate NotStoppedOnTheWay(order: Order, stack: seq<TimedLayer>, times: Times, callAt: nat, pollAt: nat) {
    Watched(stack) ==> !StoppedBy(times, ArrivesAt(order, AroundLastWatch(stack), callAt, pollAt))
  }

  lemma FirstLayer(stack: seq<TimedLayer>)
    requires stack != []
    ensures Open(stack) <==> Open(stack[1..]) && (stack[0].Timeless? ==> !Refuses(stack[0].layer))
    ensures Watched(stack) <==> Watched(stack[1..]) || stack[0].Watch?
    ensures HasStall(stack) <==> HasStall(stack[1..]) || stack[0].StallBeforeLaunch?
  {
    assert stack == [stack[0]] + stack[1..];
  }

  lemma ArrivalInside(order: Order, layer: TimedLayer, rest: seq<TimedLayer>, callAt: nat, pollAt: nat)
    ensures ArrivesAt(order, [layer] + rest, callAt, pollAt)
      == ArrivesAt(order, rest, InnerCallAt(order, layer, callAt, pollAt), InnerPollAt(layer, pollAt))
  {
    var stack := [layer] + rest;
    assert stack[1..] == rest;
    FirstLayer(stack);
    NoStallNoTime(rest);
  }

  lemma {:induction false} NoStallNoTime(stack: seq<TimedLayer>)
    ensures !HasStall(stack) ==> Stalled(stack) == 0
  {
    if stack != [] {
      FirstLayer(stack);
      NoStallNoTime(stack[1..]);
    }
  }

  /** The provider is called exactly when nothing refuses and no stop has come when the innermost watch
      looks; and it is called once all stalls that come first are over. */
  lemma {:induction false} CallMadeAt(order: Order, stack: seq<TimedLayer>, times: Times, worker: Worker, callAt: nat,
                                      pollAt: nat)
    requires callAt <= pollAt
    ensures InTime(order, stack, times, worker, callAt, pollAt).madeAt
      == if Open(stack) && NotStoppedOnTheWay(order, stack, times, callAt, pollAt)
         then Some(ArrivesAt(order, stack, callAt, pollAt)) else None
  {
    if stack != [] {
      var rest, around := stack[1..], AroundLastWatch(stack[1..]);
      var innerCallAt, innerPollAt := InnerCallAt(order, stack[0], callAt, pollAt), InnerPollAt(stack[0], pollAt);
      FirstLayer(stack);
      CallMadeAt(order, rest, times, worker, innerCallAt, innerPollAt);
      ArrivalInside(order, stack[0], rest, callAt, pollAt);
      ArrivalInside(order, stack[0], around, callAt, pollAt);
      assert stack == [stack[0]] + rest;
      assert ArrivesAt(order, around, innerCallAt, innerPollAt) >= callAt;
    }
  }

  /** As written, a stall never keeps a call from being made: the provider is called at once, exactly when
      nothing refuses and, if anything watches the clock, the request is not already stopped. */
  lemma StallsKeepNoCallBack(stack: seq<TimedLayer>, times: Times, worker: Worker, callAt: nat, pollAt: nat)
    requires callAt <= pollAt
    ensures InTime(CallThenStall, stack, times, worker, callAt, pollAt).madeAt
      == if Open(stack) && (Watched(stack) ==> !StoppedBy(times, callAt)) then Some(callAt) else None
  {
    CallMadeAt(CallThenStall, stack, times, worker, callAt, pollAt);
  }

  /** The two orders disagree on whether the provider is called exactly when a stop comes after the call
      and before the innermost watch has been reached through the stalls around it. */
  lemma OrdersDisagreeIff(stack: seq<TimedLayer>, times: Times, worker: Worker, callAt: nat, pollAt: nat)
    requires callAt <= pollAt
    ensures var written, stalled := InTime(CallThenStall, stack, times, worker, callAt, pollAt),
                                    InTime(StallThenCall, stack, times, worker, callAt, pollAt);
      && (stalled.madeAt.Some? ==> written.madeAt.Some?)
      && (written.madeAt.Some? && stalled.madeAt.None? <==>
           && Open(stack) && Watched(stack) && !StoppedBy(times, callAt) && HasStall(AroundLastWatch(stack))
           && StoppedBy(times, pollAt + Stalled(AroundLastWatch(stack))))
  {
    CallMadeAt(CallThenStall, stack, times, worker, callAt, pollAt);
    CallMadeAt(StallThenCall, stack, times, worker, callAt, pollAt);
  }

  /** A stop that comes after a call through an open stack finds the provider called already; were the
      stall to come first, it would exactly when the stalls are over, and had been over at the last look. */
  lemma StopFindsCallMadeIff(stack: seq<TimedLayer>, times: Times, worker: Worker, callAt: nat, pollAt: nat, stop: nat)
    requires callAt <= pollAt && callAt < stop && StoppedBy(times, stop) && !StoppedBy(times, stop - 1)
    ensures By(InTime(CallThenStall, stack, times, worker, callAt, pollAt).madeAt, stop) <==> Open(stack)
    ensures By(InTime(StallThenCall, stack, times, worker, callAt, pollAt).madeAt, stop) <==>
      && Open(stack) && ArrivesAt(StallThenCall, stack, callAt, pollAt) <= stop
      && (Watched(stack) ==> ArrivesAt(StallThenCall, AroundLastWatch(stack), callAt, pollAt) < stop)
  {
    CallMadeAt(CallThenStall, stack, times, worker, callAt, pollAt);
    CallMadeAt(StallThenCall, stack, times, worker, callAt, pollAt);
  }

  // ---------------------------------------------------------------------------------------------
  // Interrupted while stalled
  // ---------------------------------------------------------------------------------------------

  /** A call that does not panic there and then does not end before the stalls on its way are over. */
  lemma {:induction false} EndsAfterStalls(stack: seq<TimedLayer>, times: Times, worker: Worker, callAt: nat,
                                           pollAt: nat)
    requires InTime(CallThenStall, stack, times, worker, callAt, pollAt).madeAt.Some?
    requires !worker.provider.settlement.PanicsInCall?
    ensures !InTime(CallThenStall, stack, times, worker, callAt, pollAt).settlement.PanicsInCall?
    ensures InTime(CallThenStall, stack, times, worker, callAt, pollAt).at >= pollAt + Stalled(stack)
  {
    if stack != [] {
      EndsAfterStalls(stack[1..], times, worker, callAt, InnerPollAt(stack[0], pollAt));
    }
  }

  /** A watch around stalls sees a stop that comes before they are over; and because the provider has been
      called by then, no success leaves it, and no failure without effects. */
  lemma InterruptedStall(watch: TimedLayer, inner: seq<TimedLayer>, times: Times, worker: Worker, callAt: nat,
                         pollAt: nat, stop: nat, error: AgentError)
    requires watch.Watch? && Open(inner) && callAt <= pollAt
    requires callAt < stop < pollAt + Stalled(inner) && StoppedBy(times, stop) && !StoppedBy(times, callAt)
    requires Stalled(inner) > 0
    ensures var call := InTime(CallThenStall, [watch] + inner, times, worker, callAt, pollAt);
      && call.madeAt == Some(callAt)
      && (call.settlement.Settles? ==> call.settlement.result.Err? && call.settlement.result.error.effects != NoEffects)
  {
    var stack := [watch] + inner;
    assert stack[1..] == inner;
    FirstLayer(stack);
    StallsKeepNoCallBack(stack, times, worker, callAt, pollAt);
    if worker.provider.settlement.PanicsInCall? {
      EndsAsSeen(stack, times, worker, callAt, pollAt);
      EffectsAreExact(SeenStack(stack, times, worker, callAt, pollAt), worker.provider);
    } else {
      EndsAfterStalls(inner, times, worker, callAt, pollAt);
    }
  }

  // ---------------------------------------------------------------------------------------------
  // One stack, both orders
  // ---------------------------------------------------------------------------------------------

  /** A launch stall of five around a watch, and a caller that cancels at three. */
  const Stack: seq<TimedLayer> := [StallBeforeLaunch(5), Watch(false, false)]
  const AtThree: Times := Times(Some(3), None)

  function Works(outcome: TurnOutcome): Worker {
    Worker(Provider.Provider(IsReady, Settles(Ok(outcome))), (callAt: nat, pollAt: nat) => pollAt + 1)
  }

  lemma StackUnfolds(order: Order, outcome: TurnOutcome)
    ensures Stack[1..] == [Watch(false, false)] && Stack[1..][1..] == []
    ensures var inner := if order.StallThenCall? then 5 else 0;
      InTime(order, [Watch(false, false)], AtThree, Works(outcome), inner, 5)
        == if order.StallThenCall? then TimedCall(None, Failure(NewError(Cancelled, Admission, NoEffects)), 5)
           else TimedCall(Some(0), Failure(PreserveSettlement(NewError(Cancelled, Running, Possible), Ok(outcome))), 6)
  {
    assert [Watch(false, false)][1..] == [];
  }

  /** As written the provider is called, settles its turn, and the cancellation reports those effects; had
      the stall come first, the request would have been refused as never launched. */
  lemma CancelledInStall(outcome: TurnOutcome)
    ensures InTime(CallThenStall, Stack, AtThree, Works(outcome), 0, 0).madeAt == Some(0)
    ensures InTime(CallThenStall, Stack, AtThree, Works(outcome), 0, 0).settlement
      == Failure(PreserveSettlement(NewError(Cancelled, Running, Possible), Ok(outcome)))
    ensures InTime(StallThenCall, Stack, AtThree, Works(outcome), 0, 0).madeAt.None?
    ensures InTime(StallThenCall, Stack, AtThree, Works(outcome), 0, 0).settlement
      == Failure(NewError(Cancelled, Admission, NoEffects))
  {
    StackUnfolds(CallThenStall, outcome);
    StackUnfolds(StallThenCall, outcome);
  }
}
