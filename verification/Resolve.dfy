/** One planning pass: overlay the layers, let answers fill what is still unbound, check every bound
    value, and either finish, ask for what is missing, or report everything that is wrong. */
module Resolve {
  import opened Collections
  import opened Partial
  import opened Whitespace

  datatype Answer = Answer(id: string, value: string)

  const ProviderAnswer: string := "provider"
  const PromptAnswer: string := "prompt"

  type ProviderDefaults = map<ProviderId, PartialTurn>

  datatype Layers = Layers(providerDefaults: Option<ProviderDefaults>, applicationDefaults: Option<PartialTurn>,
                           profile: Option<PartialTurn>, explicit: PartialTurn, answers: seq<Answer>)

  /** The codes of the diagnostics, each about the one path its code names. */
  datatype Diagnostic =
    | ProviderMismatch
    | AnswerOverridesProvider
    | AnswerOverridesPrompt
    | InvalidProviderAnswer
    | UnknownRequirement(id: string)
    | BlankPrompt
    | BlankModel
    | EmptyResumeValue
    | HyphenResumeValue
    | ResumeProviderMismatch

  datatype ValueKind = KnownProvider | FreeText

  datatype Requirement = Requirement(id: string, kind: ValueKind, sensitive: bool, provider: Option<ProviderId>)

  datatype Resolution =
    | Complete(merged: PartialTurn)
    | Missing(resolved: PartialTurn, requirements: seq<Requirement>)
    | Invalid(diagnostics: seq<Diagnostic>)

  function ParseProvider(value: string): Option<ProviderId> {
    if value == "claude" then Some(Claude) else if value == "codex" then Some(Codex) else None
  }

  function Given(layer: Option<PartialTurn>): PartialTurn {
    if layer.Some? then layer.value else Unbound
  }

  // ---------------------------------------------------------------------------------------------
  // The pass, stage by stage
  // ---------------------------------------------------------------------------------------------

  /** Everything above the provider baselines. */
  function Upper(l: Layers): PartialTurn {
    Stack([Given(l.applicationDefaults), Given(l.profile), l.explicit])
  }

  /** The early look for a provider among the answers. */
  function AnsweredProvider(answers: seq<Answer>): Option<ProviderId> {
    if answers == [] then None
    else
      var before, last := AnsweredProvider(answers[..|answers| - 1]), answers[|answers| - 1];
      if before.Some? || last.id != ProviderAnswer then before else ParseProvider(last.value)
  }

  function AnsweredPrompt(answers: seq<Answer>): Option<string> {
    if answers == [] then None
    else
      var before, last := AnsweredPrompt(answers[..|answers| - 1]), answers[|answers| - 1];
      if before.Some? || last.id != PromptAnswer then before else Some(last.value)
  }

  function Selected(l: Layers): Option<ProviderId> {
    OrElse(Upper(l).provider, AnsweredProvider(l.answers))
  }

  /** A provider's own baseline, which cannot choose the provider. */
  function Baseline(l: Layers, provider: Option<ProviderId>): PartialTurn {
    if provider.Some? && l.providerDefaults.Some? && provider.value in l.providerDefaults.value
    then l.providerDefaults.value[provider.value].(provider := None)
    else Unbound
  }

  /** The overlay before any answer. */
  function Below(l: Layers): PartialTurn {
    Over(Baseline(l, Selected(l)), Upper(l))
  }

  function Fill(turn: PartialTurn, answer: Answer): PartialTurn {
    if answer.id == ProviderAnswer then turn.(provider := OrElse(turn.provider, ParseProvider(answer.value)))
    else if answer.id == PromptAnswer then turn.(prompt := OrElse(turn.prompt, Some(answer.value)))
    else turn
  }

  function Complaint(turn: PartialTurn, answer: Answer): seq<Diagnostic> {
    if answer.id == ProviderAnswer then
      if turn.provider.Some? then [AnswerOverridesProvider]
      else if ParseProvider(answer.value).None? then [InvalidProviderAnswer]
      else []
    else if answer.id == PromptAnswer then
      if turn.prompt.Some? then [AnswerOverridesPrompt] else []
    else [UnknownRequirement(answer.id)]
  }

  function Filled(turn: PartialTurn, answers: seq<Answer>): PartialTurn {
    if answers == [] then turn else Fill(Filled(turn, answers[..|answers| - 1]), answers[|answers| - 1])
  }

  function Complaints(turn: PartialTurn, answers: seq<Answer>): seq<Diagnostic> {
    if answers == [] then []
    else
      var before := answers[..|answers| - 1];
      Complaints(turn, before) + Complaint(Filled(turn, before), answers[|answers| - 1])
  }

  function Conflict(l: Layers): seq<Diagnostic> {
    if l.profile.Some? && l.profile.value.provider.Some? && l.explicit.provider.Some?
       && l.profile.value.provider != l.explicit.provider
    then [ProviderMismatch] else []
  }

  function ResumeFaults(resume: ResumeBinding, provider: Option<ProviderId>): seq<Diagnostic> {
    (if Blank(resume.value) then [EmptyResumeValue] else if resume.value[0] == '-' then [HyphenResumeValue] else [])
    + (if provider.Some? && resume.provider != provider.value then [ResumeProviderMismatch] else [])
  }

  function ValueFaults(turn: PartialTurn): seq<Diagnostic> {
    (if turn.prompt.Some? && Blank(turn.prompt.value) then [BlankPrompt] else [])
    + (if turn.model.name.Some? && Blank(turn.model.name.value) then [BlankModel] else [])
    + (if turn.context.resume.Some? then ResumeFaults(turn.context.resume.value, turn.provider) else [])
  }

  function Requirements(turn: PartialTurn): seq<Requirement> {
    (if turn.provider.None? then [Requirement(ProviderAnswer, KnownProvider, false, None)] else [])
    + (if turn.prompt.None? then [Requirement(PromptAnswer, FreeText, false, turn.provider)] else [])
  }

  function Final(l: Layers): PartialTurn {
    Filled(Below(l), l.answers)
  }

  function Diagnostics(l: Layers): seq<Diagnostic> {
    Conflict(l) + Complaints(Below(l), l.answers) + ValueFaults(Final(l))
  }

  function Outcome(l: Layers): Resolution {
    if Diagnostics(l) != [] then Invalid(Diagnostics(l))
    else if Requirements(Final(l)) != [] then Missing(Final(l), Requirements(Final(l)))
    else Complete(Final(l))
  }

  /** Look for the first provider answer that names a provider. */
  method FindAnsweredProvider(answers: seq<Answer>) returns (provider: Option<ProviderId>)
    ensures provider == AnsweredProvider(answers)
  {
    provider := None;
    for i := 0 to |answers|
      invariant provider == None == AnsweredProvider(answers[..i])
    {
      assert answers[..i + 1][..i] == answers[..i];
      if answers[i].id == ProviderAnswer {
        var parsed := ParseProvider(answers[i].value);
        if parsed.Some? {
          StaysAnswered(answers, i + 1);
          return parsed;
        }
      }
    }
    assert answers[..|answers|] == answers;
  }

  lemma {:induction false} StaysAnswered(answers: seq<Answer>, k: nat)
    requires k <= |answers| && AnsweredProvider(answers[..k]).Some?
    ensures AnsweredProvider(answers) == AnsweredProvider(answers[..k])
    decreases |answers| - k
  {
    if k < |answers| {
      assert answers[..k + 1][..k] == answers[..k];
      StaysAnswered(answers, k + 1);
    } else {
      assert answers[..k] == answers;
    }
  }

  /** Everything the layers above the baselines bind. */
  method MergeUpper(l: Layers) returns (upper: PartialTurn)
    ensures upper == Upper(l)
  {
    upper := Unbound;
    if l.applicationDefaults.Some? {
      upper := Over(upper, l.applicationDefaults.value);
    }
    if l.profile.Some? {
      upper := Over(upper, l.profile.value);
    }
    UpperUnfolds(l);
    upper := Over(upper, l.explicit);
  }

  lemma UpperUnfolds(l: Layers)
    ensures Upper(l) == Over(Over(Given(l.applicationDefaults), Given(l.profile)), l.explicit)
    ensures l.profile.None? ==> Upper(l) == Over(Given(l.applicationDefaults), l.explicit)
    ensures forall turn :: Over(Unbound, turn) == turn
  {
    var a, p, e := Given(l.applicationDefaults), Given(l.profile), l.explicit;
    assert [a, p, e][..2] == [a, p] && [a, p][..1] == [a];
    assert Stack([a]) == Over(Stack([]), a) && Stack([a, p]) == Over(Stack([a]), p);
    UnboundIsNeutral(a);
    forall turn ensures Over(Unbound, turn) == turn {
      UnboundIsNeutral(turn);
    }
  }

  /** Let the answers fill the gaps, complaining about each that may not. */
  method ApplyAnswers(start: PartialTurn, answers: seq<Answer>)
    returns (merged: PartialTurn, diagnostics: seq<Diagnostic>)
    ensures merged == Filled(start, answers) && diagnostics == Complaints(start, answers)
  {
    merged, diagnostics := start, [];
    for i := 0 to |answers|
      invariant merged == Filled(start, answers[..i]) && diagnostics == Complaints(start, answers[..i])
    {
      assert answers[..i + 1][..i] == answers[..i];
      var answer := answers[i];
      if answer.id == ProviderAnswer {
        if merged.provider.Some? {
          diagnostics := diagnostics + [AnswerOverridesProvider];
        } else {
          var parsed := ParseProvider(answer.value);
          if parsed.Some? {
            merged := merged.(provider := parsed);
          } else {
            diagnostics := diagnostics + [InvalidProviderAnswer];
          }
        }
      } else if answer.id == PromptAnswer {
        if merged.prompt.Some? {
          diagnostics := diagnostics + [AnswerOverridesPrompt];
        } else {
          merged := merged.(prompt := Some(answer.value));
        }
      } else {
        diagnostics := diagnostics + [UnknownRequirement(answer.id)];
      }
    }
    assert answers[..|answers|] == answers;
  }

  /** Check the values that are bound. */
  method CheckValues(merged: PartialTurn) returns (diagnostics: seq<Diagnostic>)
    ensures diagnostics == ValueFaults(merged)
  {
    diagnostics := [];
    if merged.prompt.Some? && Blank(merged.prompt.value) {
      diagnostics := diagnostics + [BlankPrompt];
    }
    if merged.model.name.Some? && Blank(merged.model.name.value) {
      diagnostics := diagnostics + [BlankModel];
    }
    if merged.context.resume.Some? {
      var resume := merged.context.resume.value;
      if Blank(resume.value) {
        diagnostics := diagnostics + [EmptyResumeValue];
      } else if resume.value[0] == '-' {
        diagnostics := diagnostics + [HyphenResumeValue];
      }
      if merged.provider.Some? && resume.provider != merged.provider.value {
        diagnostics := diagnostics + [ResumeProviderMismatch];
      }
    }
  }

  /** A profile and an explicit request that name different providers. */
  method FindConflict(l: Layers) returns (diagnostics: seq<Diagnostic>)
    ensures diagnostics == Conflict(l)
  {
    diagnostics := [];
    if l.profile.Some? && l.profile.value.provider.Some? && l.explicit.provider.Some?
       && l.profile.value.provider != l.explicit.provider {
      diagnostics := diagnostics + [ProviderMismatch];
    }
  }

  /** What a merged turn still lacks, the provider first. */
  method ListRequirements(merged: PartialTurn) returns (requirements: seq<Requirement>)
    ensures requirements == Requirements(merged)
  {
    requirements := [];
    if merged.provider.None? {
      requirements := requirements + [Requirement(ProviderAnswer, KnownProvider, false, None)];
    }
    if merged.prompt.None? {
      requirements := requirements + [Requirement(PromptAnswer, FreeText, false, merged.provider)];
    }
  }

  /** The overlay of every layer but the answers. */
  method MergeLayers(l: Layers) returns (merged: PartialTurn)
    ensures merged == Below(l)
  {
    var upper := MergeUpper(l);
    var answered := FindAnsweredProvider(l.answers);
    var selected := OrElse(upper.provider, answered);
    merged := Baseline(l, selected);
    merged := Over(merged, upper);
  }

  /** One pass over the supplied layers. */
  method ResolveLayers(l: Layers) returns (r: Resolution)
    ensures r == Outcome(l)
  {
    var diagnostics := FindConflict(l);
    var merged := MergeLayers(l);
    var complaints;
    merged, complaints := ApplyAnswers(merged, l.answers);
    var faults := CheckValues(merged);
    diagnostics := diagnostics + complaints + faults;
    if diagnostics != [] {
      return Invalid(diagnostics);
    }
    var requirements := ListRequirements(merged);
    if requirements != [] {
      return Missing(merged, requirements);
    }
    r := Complete(merged);
  }
}
