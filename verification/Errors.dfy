/** Failures whose classification and evidence survive middleware: the effect lattice, the left-biased
    evidence merge, and the folding of one failure into another. */
module Errors {
  import opened Collections

  datatype ErrorKind =
    | InvalidRequest | Authentication | Unauthorized | Unsupported | Busy | Unavailable
    | DeadlineExceeded | Cancelled | Budget | Limit | Provider | Internal

  datatype FailurePhase = Admission | Validation | Launch | Running | Settlement

  datatype EffectState = NoEffects | Possible | Reported

  datatype TokenUsage = TokenUsage(input: Option<nat>, cachedInput: Option<nat>, cacheWriteInput: Option<nat>,
                                   output: Option<nat>, reasoningOutput: Option<nat>, providerTotal: Option<nat>)

  datatype Cost = Cost(amount: real, currency: string)

  datatype SessionHandle = SessionHandle(provider: string, value: string)

  datatype FailureEvidence = FailureEvidence(session: Option<SessionHandle>, usage: Option<TokenUsage>,
                                             cost: Option<Cost>, duration: Option<nat>, providerTurns: Option<nat>)

  datatype AgentError = AgentError(kind: ErrorKind, phase: FailurePhase, effects: EffectState,
                                   evidence: Option<FailureEvidence>, retryAfter: Option<nat>,
                                   cause: Option<AgentError>)

  /** The terminal result of one turn; `structured` is the serialized payload. */
  datatype TurnOutcome = TurnOutcome(output: seq<Byte>, structured: Option<seq<Byte>>, session: Option<SessionHandle>,
                                     usage: Option<TokenUsage>, cost: Option<Cost>, duration: Option<nat>,
                                     providerTurns: Option<nat>)

  function NewError(kind: ErrorKind, phase: FailurePhase, effects: EffectState): AgentError {
    AgentError(kind, phase, effects, None, None, None)
  }

  function TerminalEvidence(outcome: TurnOutcome): FailureEvidence {
    FailureEvidence(outcome.session, outcome.usage, outcome.cost, outcome.duration, outcome.providerTurns)
  }

  function Combine(a: EffectState, b: EffectState): EffectState {
    match (a, b)
    case (Reported, _) => Reported
    case (_, Reported) => Reported
    case (Possible, _) => Possible
    case (_, Possible) => Possible
    case (NoEffects, NoEffects) => NoEffects
  }

  function Severity(e: EffectState): nat {
    match e
    case NoEffects => 0
    case Possible => 1
    case Reported => 2
  }

  function MergeMissing(e: FailureEvidence, other: FailureEvidence): FailureEvidence {
    FailureEvidence(OrElse(e.session, other.session), OrElse(e.usage, other.usage), OrElse(e.cost, other.cost),
                    OrElse(e.duration, other.duration), OrElse(e.providerTurns, other.providerTurns))
  }

  function MergeEvidence(e: Option<FailureEvidence>, other: Option<FailureEvidence>): Option<FailureEvidence> {
    if e.Some? && other.Some? then Some(MergeMissing(e.value, other.value)) else OrElse(e, other)
  }

  function WithCause(e: AgentError, cause: AgentError): AgentError {
    e.(effects := Combine(e.effects, cause.effects), retryAfter := OrElse(e.retryAfter, cause.retryAfter),
       evidence := MergeEvidence(e.evidence, cause.evidence), cause := Some(cause))
  }

  function WithEvidence(e: AgentError, evidence: FailureEvidence): AgentError {
    e.(evidence := Some(evidence))
  }

  /** Combining is the least upper bound of two severities. */
  lemma CombineIsTheWorse(a: EffectState, b: EffectState)
    ensures Severity(Combine(a, b)) == if Severity(a) <= Severity(b) then Severity(b) else Severity(a)
    ensures Combine(a, b) == Combine(b, a) && Combine(a, a) == a && Combine(a, NoEffects) == a
  {
  }

  lemma CombineAssociates(a: EffectState, b: EffectState, c: EffectState)
    ensures Combine(Combine(a, b), c) == Combine(a, Combine(b, c))
  {
  }

  /** Evidence merges in any grouping, and absent evidence is neutral. */
  lemma MergeEvidenceAssociates(a: Option<FailureEvidence>, b: Option<FailureEvidence>, c: Option<FailureEvidence>)
    ensures MergeEvidence(MergeEvidence(a, b), c) == MergeEvidence(a, MergeEvidence(b, c))
    ensures MergeEvidence(a, None) == a == MergeEvidence(None, a)
  {
  }

  /** The failures a failure was folded around, outermost first. */
  function Chain(e: AgentError): seq<AgentError>
    decreases e
  {
    [e] + (if e.cause.Some? then Chain(e.cause.value) else [])
  }

  /** The outer failures of `errors` folded one by one around a first one; the last is outermost. */
  function Wrapped(root: AgentError, errors: seq<AgentError>): AgentError {
    if errors == [] then root else WithCause(errors[|errors| - 1], Wrapped(root, errors[..|errors| - 1]))
  }

  /** However many failures are folded around one, its effects are never understated, its evidence and
      guidance are never overwritten by nothing, and it stays reachable as a cause. */
  lemma {:induction false} WrappingKeepsTheRoot(root: AgentError, errors: seq<AgentError>)
    ensures var e := Wrapped(root, errors);
      && Severity(e.effects) >= Severity(root.effects)
      && (root.retryAfter.Some? ==> e.retryAfter.Some?)
      && (root.evidence.Some? ==> e.evidence.Some? && Covers(e.evidence.value, root.evidence.value))
      && root in Chain(e)
  {
    if errors != [] {
      var outer, inner := errors[|errors| - 1], Wrapped(root, errors[..|errors| - 1]);
      WrappingKeepsTheRoot(root, errors[..|errors| - 1]);
      CombineIsTheWorse(outer.effects, inner.effects);
      assert Chain(WithCause(outer, inner)) == [WithCause(outer, inner)] + Chain(inner);
    }
  }

  /** Every fact one evidence has, the other has a value for. */
  predicate Covers(more: FailureEvidence, less: FailureEvidence) {
    && (less.session.Some? ==> more.session.Some?) && (less.usage.Some? ==> more.usage.Some?)
    && (less.cost.Some? ==> more.cost.Some?) && (less.duration.Some? ==> more.duration.Some?)
    && (less.providerTurns.Some? ==> more.providerTurns.Some?)
  }
}
