/** What a failure may claim after any stack of layers. Timing, faults and panics of one call are part of
    each layer's description, so the laws below hold for every way a call can go. */
module Middleware {
  import opened Collections
  import opened Errors

  datatype Entry = Live | AlreadyCancelled | AlreadyElapsed

  datatype Interruption = Undisturbed | CancelledMeanwhile | ElapsedMeanwhile

  datatype Fault =
    | DelayBeforeLaunch
    | RefuseBeforeLaunch(kind: ErrorKind)
    | DelaySettlement
    | FailAfterSettlement(kind: ErrorKind)

  /** One layer as one call meets it. `Refuse` is any layer that may turn a request away with no
      effects before handing it on: validation, authority, admission. */
  datatype Layer =
    | Deadline(entry: Entry, during: Interruption)
    | InjectFaults(fault: Option<Fault>)
    | LimitOutput(maxBytes: nat)
    | CatchPanic
    | Supervise
    | Refuse(refusal: Option<(ErrorKind, FailurePhase)>)

  /** What the wrapped provider does when it is asked whether it is ready, and when it is called. */
  datatype Readiness = IsReady | NotReady(error: AgentError) | ReadinessPanics

  datatype Settlement = Settles(result: Result<TurnOutcome, AgentError>) | PanicsInCall | PanicsInFuture

  datatype Provider = Provider(readiness: Readiness, settlement: Settlement)

  /** How one call ended and whether the provider's `call` was made. */
  datatype Call = Call(called: bool, settlement: Settlement)

  function OutputBytes(outcome: TurnOutcome): nat {
    |outcome.output| + if outcome.structured.Some? then |outcome.structured.value| else 0
  }

  function Failure(error: AgentError): Settlement {
    Settles(Err(error))
  }

  /** An outer failure that takes over the effects, facts and cause of a settlement it supersedes. */
  function PreserveSettlement(error: AgentError, settled: Result<TurnOutcome, AgentError>): AgentError {
    match settled
    case Err(cause) => WithCause(error, cause)
    case Ok(outcome) =>
      error.(effects := Combine(error.effects, Reported),
             evidence := MergeEvidence(error.evidence, Some(TerminalEvidence(outcome))))
  }

  /** A failure put in the place of a settled result. */
  function FailAfter(kind: ErrorKind, settled: Result<TurnOutcome, AgentError>): AgentError {
    match settled
    case Ok(outcome) => WithEvidence(NewError(kind, FailurePhase.Settlement, Reported), TerminalEvidence(outcome))
    case Err(cause) => WithCause(NewError(kind, FailurePhase.Settlement, cause.effects), cause)
  }

  /** A layer that turns the request away before calling inward. */
  predicate Refuses(layer: Layer) {
    match layer
    case Deadline(entry, _) => !entry.Live?
    case InjectFaults(fault) => fault.Some? && fault.value.RefuseBeforeLaunch?
    case Refuse(refusal) => refusal.Some?
    case _ => false
  }

  function Refusal(layer: Layer): AgentError
    requires Refuses(layer)
  {
    match layer
    case Deadline(entry, _) =>
      NewError(if entry.AlreadyCancelled? then Cancelled else DeadlineExceeded, Admission, NoEffects)
    case InjectFaults(fault) => NewError(fault.value.kind, Admission, NoEffects)
    case Refuse(refusal) => NewError(refusal.value.0, refusal.value.1, NoEffects)
  }

  /** What a layer makes of the way the inner call ended. */
  function Passed(layer: Layer, inner: Settlement): Settlement {
    match layer
    case Deadline(_, during) =>
      if !inner.Settles? || during.Undisturbed? then inner
      else Failure(PreserveSettlement(
        NewError(if during.ElapsedMeanwhile? then DeadlineExceeded else Cancelled, Running, Possible), inner.result))
    case InjectFaults(fault) =>
      if inner.Settles? && fault.Some? && fault.value.FailAfterSettlement?
      then Failure(FailAfter(fault.value.kind, inner.result)) else inner
    case LimitOutput(maxBytes) =>
      if inner.Settles? && inner.result.Ok? && OutputBytes(inner.result.value) > maxBytes
      then Failure(WithEvidence(NewError(Limit, FailurePhase.Settlement, Reported),
                                TerminalEvidence(inner.result.value)))
      else inner
    case CatchPanic =>
      if inner.PanicsInCall? then Failure(NewError(Internal, Launch, Possible))
      else if inner.PanicsInFuture? then Failure(NewError(Internal, FailurePhase.Settlement, Possible))
      else inner
    case Supervise =>
      if inner.PanicsInFuture? then Failure(NewError(Internal, FailurePhase.Settlement, Possible)) else inner
    case Refuse(_) => inner
  }

  /** One call through a stack, outermost layer first. */
  function Through(stack: seq<Layer>, provider: Provider): Call {
    if stack == [] then Call(true, provider.settlement)
    else if Refuses(stack[0]) then Call(false, Failure(Refusal(stack[0])))
    else
      var inner := Through(stack[1..], provider);
      Call(inner.called, Passed(stack[0], inner.settlement))
  }

  /** Readiness through a stack: every layer asks the next, and only one of them catches a panic. */
  function ReadyThrough(stack: seq<Layer>, provider: Provider): Readiness {
    if stack == [] then provider.readiness
    else
      var inner := ReadyThrough(stack[1..], provider);
      if stack[0].CatchPanic? && inner.ReadinessPanics? then NotReady(NewError(Internal, Admission, NoEffects))
        else inner
  }

  /** Ask for readiness, then call: how a client uses a stack. */
  function Oneshot(stack: seq<Layer>, provider: Provider): Call {
    match ReadyThrough(stack, provider)
    case IsReady => Through(stack, provider)
    case NotReady(error) => Call(false, Failure(error))
    case ReadinessPanics => Call(false, PanicsInCall)
  }

  // ---------------------------------------------------------------------------------------------
  // Honest failures
  // ---------------------------------------------------------------------------------------------

  ghost predicate Admits(stack: seq<Layer>) {
    forall i | 0 <= i < |stack| :: !Refuses(stack[i])
  }

  /** The provider's `call` is made exactly when no layer refuses; a refusal is a fresh failure that
      claims no effects, reworked by nothing but the layers around it. */
  lemma {:induction false} CalledIffAdmitted(stack: seq<Layer>, provider: Provider)
    ensures Through(stack, provider).called <==> Admits(stack)
  {
    if stack != [] {
      CalledIffAdmitted(stack[1..], provider);
      assert forall i | 0 <= i < |stack| :: i > 0 ==> stack[i] == stack[1..][i - 1];
      assert Admits(stack) <==> !Refuses(stack[0]) && Admits(stack[1..]);
    }
  }

  /** Some deadline or cancellation was noticed while the call was in flight. */
  predicate Interrupted(stack: seq<Layer>) {
    exists i :: 0 <= i < |stack| && Interrupts(stack[i])
  }

  predicate Interrupts(layer: Layer) {
    layer.Deadline? && !layer.during.Undisturbed?
  }

  /** How many layers, from the outside, a request gets through. */
  function Reach(stack: seq<Layer>): (n: nat)
    ensures n <= |stack|
  {
    if stack == [] || Refuses(stack[0]) then 0 else 1 + Reach(stack[1..])
  }

  /** What the provider itself established about effects, if it was called. */
  function Claim(call: Call, provider: Provider): EffectState {
    if !call.called then NoEffects
    else if !provider.settlement.Settles? then Possible
    else if provider.settlement.result.Ok? then Reported
    else provider.settlement.result.error.effects
  }

  function Doubt(interrupted: bool): EffectState {
    if interrupted then Possible else NoEffects
  }

  /** Interruptions a request could meet before it was turned away or reached the provider. */
  function Met(stack: seq<Layer>): bool {
    Interrupted(stack[..Reach(stack)])
  }

  lemma MetSplits(stack: seq<Layer>)
    requires stack != [] && !Refuses(stack[0])
    ensures Met(stack) <==> Interrupts(stack[0]) || Met(stack[1..])
  {
    var reached := stack[..Reach(stack)];
    assert reached[1..] == stack[1..][..Reach(stack[1..])];
  }

  /** Exactly what a failure leaving a stack says about effects: what the provider established if it
      was called, made doubtful by any interruption on the way, and nothing else. */
  lemma {:induction false} EffectsAreExact(stack: seq<Layer>, provider: Provider)
    ensures var call := Through(stack, provider);
      call.settlement.Settles? && call.settlement.result.Err? ==>
        call.settlement.result.error.effects == Combine(Claim(call, provider), Doubt(Met(stack)))
    ensures var call := Through(stack, provider);
      call.settlement.Settles? && call.settlement.result.Ok? ==>
        call.called && provider.settlement == call.settlement && !Met(stack)
    ensures var call := Through(stack, provider);
      !call.settlement.Settles? ==> call.called && provider.settlement == call.settlement
  {
    if stack == [] || Refuses(stack[0]) {
      assert stack[..0] == [];
    } else {
      var inner := Through(stack[1..], provider);
      EffectsAreExact(stack[1..], provider);
      MetSplits(stack);
    }
  }

  /** What the provider established, as evidence: the facts of a settled turn, or of its failure. */
  function Established(call: Call, provider: Provider): Option<FailureEvidence> {
    if !call.called || !provider.settlement.Settles? then None
    else
      match provider.settlement.result
      case Ok(outcome) => Some(TerminalEvidence(outcome))
      case Err(error) => error.evidence
  }

  function Guidance(call: Call, provider: Provider): Option<nat> {
    if call.called && provider.settlement.Settles? && provider.settlement.result.Err?
    then provider.settlement.result.error.retryAfter else None
  }

  /** What a settlement says about a turn: the evidence of its failure, or the facts of its success. */
  function Facts(s: Settlement): Option<FailureEvidence> {
    match s
    case Settles(Ok(outcome)) => Some(TerminalEvidence(outcome))
    case Settles(Err(error)) => error.evidence
    case _ => None
  }

  /** A failure leaving a stack carries exactly the evidence and the waiting guidance the provider's
      own settlement established. */
  lemma {:induction false} EvidenceIsExact(stack: seq<Layer>, provider: Provider)
    ensures var call := Through(stack, provider);
      Facts(call.settlement) == Established(call, provider)
    ensures var call := Through(stack, provider);
      call.settlement.Settles? && call.settlement.result.Err? ==>
        call.settlement.result.error.retryAfter == Guidance(call, provider)
  {
    if stack != [] && !Refuses(stack[0]) {
      var inner := Through(stack[1..], provider);
      EvidenceIsExact(stack[1..], provider);
      EffectsAreExact(stack[1..], provider);
    }
  }

  /** The provider's own failure is never swallowed: it ends the call as a failure and stays reachable
      among its causes. */
  lemma {:induction false} ProviderFailureStaysReachable(stack: seq<Layer>, provider: Provider, root: AgentError)
    requires Through(stack, provider).called && provider.settlement == Failure(root)
    ensures var s := Through(stack, provider).settlement; s.Settles? && s.result.Err? && root in Chain(s.result.error)
  {
    if stack != [] {
      ProviderFailureStaysReachable(stack[1..], provider, root);
    }
  }

  /** A layer that lets a given success through. */
  predicate LetsThrough(layer: Layer, outcome: TurnOutcome) {
    match layer
    case Deadline(entry, during) => entry.Live? && during.Undisturbed?
    case InjectFaults(fault) => fault.None? || fault.value.DelayBeforeLaunch? || fault.value.DelaySettlement?
    case LimitOutput(maxBytes) => OutputBytes(outcome) <= maxBytes
    case Refuse(refusal) => refusal.None?
    case _ => true
  }

  ghost predicate AllLetThrough(stack: seq<Layer>, outcome: TurnOutcome) {
    forall i | 0 <= i < |stack| :: LetsThrough(stack[i], outcome)
  }

  /** A call succeeds exactly when its provider does and every layer lets that very outcome through. */
  lemma {:induction false} SucceedsIff(stack: seq<Layer>, provider: Provider, outcome: TurnOutcome)
    ensures Through(stack, provider).settlement == Settles(Ok(outcome))
      <==> provider.settlement == Settles(Ok(outcome)) && AllLetThrough(stack, outcome)
  {
    if stack != [] {
      SucceedsIff(stack[1..], provider, outcome);
      assert forall i | 0 <= i < |stack| :: i > 0 ==> stack[i] == stack[1..][i - 1];
      assert AllLetThrough(stack, outcome) <==> LetsThrough(stack[0], outcome) && AllLetThrough(stack[1..], outcome);
      if !Refuses(stack[0]) {
        EffectsAreExact(stack[1..], provider);
      }
    }
  }

  predicate Catches(layer: Layer, panic: Settlement) {
    layer.CatchPanic? || (layer.Supervise? && panic.PanicsInFuture?)
  }

  ghost predicate NoneCatches(stack: seq<Layer>, panic: Settlement) {
    forall i | 0 <= i < |stack| :: !Catches(stack[i], panic)
  }

  /** A provider's panic escapes exactly when the call reached the provider and no layer catches it. */
  lemma {:induction false} PanicEscapesIff(stack: seq<Layer>, provider: Provider)
    requires !provider.settlement.Settles?
    ensures !Through(stack, provider).settlement.Settles? <==> Admits(stack) && NoneCatches(stack, provider.settlement)
  {
    if stack != [] {
      PanicEscapesIff(stack[1..], provider);
      EffectsAreExact(stack[1..], provider);
      assert forall i | 0 <= i < |stack| :: i > 0 ==> stack[i] == stack[1..][i - 1];
      assert Admits(stack) <==> !Refuses(stack[0]) && Admits(stack[1..]);
      assert NoneCatches(stack, provider.settlement) <==>
        !Catches(stack[0], provider.settlement) && NoneCatches(stack[1..], provider.settlement);
    }
  }

  // ---------------------------------------------------------------------------------------------
  // From the client's side
  // ---------------------------------------------------------------------------------------------

  /** A failure that claims no effects comes from a call never made, or from a provider that itself
      claimed none; and a call whose provider settled a turn can only fail with its effects reported
      and exactly its terminal facts. */
  lemma FailuresAreHonest(stack: seq<Layer>, provider: Provider, error: AgentError)
    requires Oneshot(stack, provider).settlement == Failure(error)
    ensures error.effects == NoEffects && Oneshot(stack, provider).called ==>
      provider.settlement.Settles? && provider.settlement.result.Err?
        && provider.settlement.result.error.effects == NoEffects
    ensures Oneshot(stack, provider).called && provider.settlement.Settles? && provider.settlement.result.Ok? ==>
      error.effects == Reported && error.evidence == Some(TerminalEvidence(provider.settlement.result.value))
    ensures Oneshot(stack, provider).called && provider.settlement.Settles? && provider.settlement.result.Err? ==>
      Severity(error.effects) >= Severity(provider.settlement.result.error.effects)
        && error.evidence == provider.settlement.result.error.evidence
  {
    EffectsAreExact(stack, provider);
    EvidenceIsExact(stack, provider);
    CombineIsTheWorse(Claim(Through(stack, provider), provider), Doubt(Met(stack)));
  }

  /** A panic while becoming ready is caught as a failure without effects exactly under a layer that
      catches it, and no request has been handed on either way. */
  lemma {:induction false} ReadinessPanicClaimsNothing(stack: seq<Layer>, provider: Provider)
    requires provider.readiness.ReadinessPanics?
    ensures !Oneshot(stack, provider).called
    ensures (exists i :: 0 <= i < |stack| && stack[i].CatchPanic?)
      ==> ReadyThrough(stack, provider) == NotReady(NewError(Internal, Admission, NoEffects))
    ensures !(exists i :: 0 <= i < |stack| && stack[i].CatchPanic?) ==> ReadyThrough(stack, provider).ReadinessPanics?
  {
    if stack != [] {
      ReadinessPanicClaimsNothing(stack[1..], provider);
      if exists i :: 0 <= i < |stack| && stack[i].CatchPanic? {
        var i :| 0 <= i < |stack| && stack[i].CatchPanic?;
        assert i > 0 ==> stack[1..][i - 1].CatchPanic?;
      } else {
        assert forall i | 0 <= i < |stack[1..]| :: stack[1..][i] == stack[i + 1];
      }
    }
  }

  // ---------------------------------------------------------------------------------------------
  // The fault script
  // ---------------------------------------------------------------------------------------------

  /** The queue of faults that every clone of one injecting layer shares. */
  class FaultScript {
    var script: seq<Fault>

    constructor (faults: seq<Fault>)
      ensures script == faults
    {
      script := faults;
    }

    /** Take the next fault, if any is left, and let one call meet it. */
    method Inject(provider: Provider) returns (call: Call)
      modifies this
      ensures script == if old(script) == [] then [] else old(script)[1..]
      ensures call == Through([InjectFaults(if old(script) == [] then None else Some(old(script)[0]))], provider)
      ensures call.called <==> old(script) == [] || !old(script)[0].RefuseBeforeLaunch?
    {
      var fault := None;
      if script != [] {
        fault := Some(script[0]);
        script := script[1..];
      }
      match fault {
        case Some(RefuseBeforeLaunch(kind)) =>
          call := Call(false, Failure(NewError(kind, Admission, NoEffects)));
        case Some(FailAfterSettlement(kind)) =>
          call := Call(true, provider.settlement);
          if call.settlement.Settles? {
            call := Call(true, Failure(FailAfter(kind, call.settlement.result)));
          }
        case _ =>
          call := Call(true, provider.settlement);
      }
      ghost var layer := InjectFaults(fault);
      assert [layer][1..] == [] && Through([], provider) == Call(true, provider.settlement);
    }
  }
}
