/** How the planning tool turns a client's request into the explicit layer, and what becomes of a
    provider name nobody knows. */
module PlanRequest {
  import opened Collections
  import opened Partial
  import opened Resolve
  import opened Planning
  import opened Elicitation

  datatype PlanInput = PlanInput(prompt: Option<string>, provider: Option<string>, continuation: Option<string>)

  datatype Session = Session(provider: string, value: string)

  datatype Rejection = ContinuationRefused | ForeignContinuation

  /** `lookup` is the host's continuation store. */
  type Lookup = string -> Option<Session>

  function OnlyPrompt(prompt: Option<string>): PartialTurn {
    Unbound.(prompt := prompt)
  }

  function Resumed(prompt: Option<string>, provider: ProviderId, value: string): PartialTurn {
    OnlyPrompt(prompt).(provider := Some(provider),
                        context := NoContext.(resume := Some(ResumeBinding(provider, value))))
  }

  function ExplicitOf(input: PlanInput, lookup: Lookup): Result<PartialTurn, Rejection> {
    if input.continuation.Some? then
      match lookup(input.continuation.value)
      case None => Err(ContinuationRefused)
      case Some(session) =>
        var provider := ParseProvider(session.provider);
        if provider.None? then Err(ForeignContinuation)
        else Ok(Resumed(input.prompt, provider.value, session.value))
    else
      Ok(OnlyPrompt(input.prompt).(
        provider := if input.provider.Some? then ParseProvider(input.provider.value) else None))
  }

  /** Fill the explicit layer field by field. */
  method BuildExplicit(input: PlanInput, lookup: Lookup) returns (r: Result<PartialTurn, Rejection>)
    ensures r == ExplicitOf(input, lookup)
  {
    var explicit := Unbound.(prompt := input.prompt);
    if input.continuation.Some? {
      match lookup(input.continuation.value) {
        case None => return Err(ContinuationRefused);
        case Some(session) =>
          var provider := ParseProvider(session.provider);
          if provider.None? {
            return Err(ForeignContinuation);
          }
          explicit := explicit.(provider := provider);
          explicit := explicit.(
            context := explicit.context.(resume := Some(ResumeBinding(provider.value, session.value))));
      }
    } else if input.provider.Some? {
      explicit := explicit.(provider := ParseProvider(input.provider.value));
    }
    return Ok(explicit);
  }

  /** A request that names a provider nobody knows. */
  predicate NamesUnknown(input: PlanInput) {
    input.continuation.None? && input.provider.Some? && ParseProvider(input.provider.value).None?
  }

  // ---------------------------------------------------------------------------------------------
  // What the first pass makes of a request
  // ---------------------------------------------------------------------------------------------

  /** The first pass sees the defaults under the explicit layer and nothing else. */
  lemma FirstPass(u: Setup)
    ensures Final(LayersAt(u, [])) == Over(u.defaults, u.explicit)
    ensures Diagnostics(LayersAt(u, [])) == ValueFaults(Over(u.defaults, u.explicit))
  {
    var l := LayersAt(u, []);
    UpperUnfolds(l);
    UnboundIsNeutral(u.defaults);
  }

  /** Every diagnostic of checking values is about a value, none about the choice of a provider. */
  lemma FaultsAreAboutValues(turn: PartialTurn, d: Diagnostic)
    requires d in ValueFaults(turn)
    ensures d in {BlankPrompt, BlankModel, EmptyResumeValue, HyphenResumeValue, ResumeProviderMismatch}
    ensures d == ResumeProviderMismatch ==> turn.context.resume.Some? && turn.provider.Some?
  {
  }

  /** A request with an unknown provider name is a request with no name, in every pass of every run. */
  lemma UnknownNameIsNoName(input: PlanInput, lookup: Lookup)
    requires NamesUnknown(input)
    ensures ExplicitOf(input, lookup) == ExplicitOf(input.(provider := None), lookup) == Ok(OnlyPrompt(input.prompt))
  {
  }

  /** What such a request meets: no diagnostic comes from the name, only from values that the prompt and
      the host's defaults bind; a pass that is not refused asks for a provider exactly when the defaults
      bind none, and otherwise goes on with theirs. */
  lemma UnknownNameMeetsDefaults(u: Setup, input: PlanInput, lookup: Lookup)
    requires NamesUnknown(input) && ExplicitOf(input, lookup) == Ok(u.explicit)
    ensures Outcome(LayersAt(u, [])).Invalid? <==>
      !WellFormed(u.defaults.(prompt := OrElse(input.prompt, u.defaults.prompt)))
    ensures Outcome(LayersAt(u, [])).Invalid? ==>
      Outcome(LayersAt(u, [])).diagnostics
        == ValueFaults(u.defaults.(prompt := OrElse(input.prompt, u.defaults.prompt)))
    ensures !Outcome(LayersAt(u, [])).Invalid? ==>
      (ProviderAnswer in Asked(LayersAt(u, [])) <==> u.defaults.provider.None?)
    ensures Final(LayersAt(u, [])).provider == u.defaults.provider
  {
    var l := LayersAt(u, []);
    FirstPass(u);
    PromptOverDefaults(u.defaults, input.prompt);
    OutcomeIsExact(l);
    AskedIsUnbound(l);
  }

  lemma PromptOverDefaults(defaults: PartialTurn, prompt: Option<string>)
    ensures Over(defaults, OnlyPrompt(prompt)) == defaults.(prompt := OrElse(prompt, defaults.prompt))
  {
  }

  /** A known name wins over the defaults and is never asked about, whatever is answered. */
  lemma KnownNameBinds(u: Setup, input: PlanInput, lookup: Lookup, provider: ProviderId, answers: seq<Answer>)
    requires input.continuation.None? && input.provider.Some? && ParseProvider(input.provider.value) == Some(provider)
    requires ExplicitOf(input, lookup) == Ok(u.explicit)
    ensures Final(LayersAt(u, answers)).provider == Some(provider)
    ensures ProviderAnswer !in Asked(LayersAt(u, answers))
  {
    ExplicitProviderWins(u, answers);
  }

  lemma ExplicitProviderWins(u: Setup, answers: seq<Answer>)
    requires u.explicit.provider.Some?
    ensures Final(LayersAt(u, answers)).provider == u.explicit.provider
    ensures ProviderAnswer !in Asked(LayersAt(u, answers))
  {
    var l := LayersAt(u, answers);
    UpperUnfolds(l);
    SelectionAgrees(l);
    AskedIsUnbound(l);
  }

  /** A continuation settles the provider, whatever name stands beside it: the turn that is launched, if
      one is, runs on the provider that owns the session. */
  lemma ContinuationSettlesProvider(u: Setup, input: PlanInput, lookup: Lookup)
    requires input.continuation.Some? && ExplicitOf(input, lookup) == Ok(u.explicit)
    ensures var session := lookup(input.continuation.value);
      session.Some? && ParseProvider(session.value.provider).Some?
        && u.explicit.provider == ParseProvider(session.value.provider)
    ensures forall answers :: ProviderAnswer !in Asked(LayersAt(u, answers))
    ensures EpisodeOf(u).verdict.Launched? ==> EpisodeOf(u).verdict.turn.provider == u.explicit.provider
  {
    forall answers ensures ProviderAnswer !in Asked(LayersAt(u, answers)) {
      ExplicitProviderWins(u, answers);
    }
    var answers := VerdictsAreEarned(u);
    ExplicitProviderWins(u, answers);
  }

  // ---------------------------------------------------------------------------------------------
  // A misspelt name
  // ---------------------------------------------------------------------------------------------

  const Misspelt: PlanInput := PlanInput(Some("go"), Some("codx"), None)

  function Host(defaults: PartialTurn): Setup {
    Setup(OnlyPrompt(Some("go")), defaults, 3, (round, requirements) => Declined, turn => true)
  }

  lemma MisspeltIsUnknown(lookup: Lookup)
    ensures NamesUnknown(Misspelt) && ExplicitOf(Misspelt, lookup) == Ok(OnlyPrompt(Some("go")))
  {
  }

  lemma MisspeltIsWellFormed(provider: Option<ProviderId>)
    ensures WellFormed(Unbound.(provider := provider, prompt := Some("go")))
  {
    assert "go"[0] == 'g';
  }

  /** Where the host has no default provider, the name "codx" leads to a question. */
  lemma MisspeltWithoutDefaults(lookup: Lookup)
    ensures ExplicitOf(Misspelt, lookup) == Ok(Host(Unbound).explicit)
    ensures Outcome(LayersAt(Host(Unbound), [])).Missing? && Asked(LayersAt(Host(Unbound), [])) == {ProviderAnswer}
  {
    MisspeltIsUnknown(lookup);
    MisspeltIsWellFormed(None);
    UnknownNameMeetsDefaults(Host(Unbound), Misspelt, lookup);
    AskedIsUnbound(LayersAt(Host(Unbound), []));
    FirstPass(Host(Unbound));
    OutcomeIsExact(LayersAt(Host(Unbound), []));
  }

  /** Where the host's default is the other provider, the same request is launched on that one, and
      nobody is asked or told. */
  lemma MisspeltWithDefaults(lookup: Lookup)
    ensures var u := Host(Unbound.(provider := Some(Claude)));
      && ExplicitOf(Misspelt, lookup) == Ok(u.explicit)
      && EpisodeOf(u).elicitations == 0 && EpisodeOf(u).verdict.Launched?
      && EpisodeOf(u).verdict.turn.provider == Some(Claude)
  {
    var u := Host(Unbound.(provider := Some(Claude)));
    MisspeltIsUnknown(lookup);
    MisspeltIsWellFormed(Some(Claude));
    UnknownNameMeetsDefaults(u, Misspelt, lookup);
    FirstPass(u);
    OutcomeIsExact(LayersAt(u, []));
    assert RoundsOf(u)([], 0) == RoundOf(u, [], 0);
  }
}
