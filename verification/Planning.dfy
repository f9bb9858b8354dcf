/** What a planning pass promises, over all layers and all answers. */
module Planning {
  import opened Collections
  import opened Partial
  import opened Resolve
  import opened Whitespace

  // ---------------------------------------------------------------------------------------------
  // Answers fill gaps
  // ---------------------------------------------------------------------------------------------

  /** Answers bind the two answerable paths where they were unbound, and nothing else. */
  lemma {:induction false} AnswersFillGaps(turn: PartialTurn, answers: seq<Answer>)
    ensures Filled(turn, answers) == turn.(provider := OrElse(turn.provider, AnsweredProvider(answers)),
                                           prompt := OrElse(turn.prompt, AnsweredPrompt(answers)))
  {
    if answers != [] {
      AnswersFillGaps(turn, answers[..|answers| - 1]);
    }
  }

  /** The early look for a provider agrees with the binding the later loop arrives at. */
  lemma SelectionAgrees(l: Layers)
    ensures Final(l).provider == Selected(l)
  {
    AnswersFillGaps(Below(l), l.answers);
    OverBinds(Baseline(l, Selected(l)), Upper(l), Provider);
  }

  ghost predicate Answers(answers: seq<Answer>, id: string) {
    exists i :: 0 <= i < |answers| && answers[i].id == id
  }

  /** One answer is fair: it names a known requirement, its path is unbound below, and a provider
      answer names a provider. */
  predicate Fair(turn: PartialTurn, answer: Answer) {
    || (answer.id == ProviderAnswer && turn.provider.None? && ParseProvider(answer.value).Some?)
    || (answer.id == PromptAnswer && turn.prompt.None?)
  }

  /** Every answer is fair and no path is answered twice. */
  ghost predicate Acceptable(turn: PartialTurn, answers: seq<Answer>) {
    && (forall i | 0 <= i < |answers| :: Fair(turn, answers[i]))
    && (forall i, j | 0 <= i < j < |answers| :: answers[i].id != answers[j].id)
  }

  lemma {:induction false} AcceptableSplits(turn: PartialTurn, answers: seq<Answer>)
    requires answers != []
    ensures var before, last := answers[..|answers| - 1], answers[|answers| - 1];
      Acceptable(turn, answers) <==> Acceptable(turn, before) && Fair(turn, last) && !Answers(before, last.id)
  {
    var before, last := answers[..|answers| - 1], answers[|answers| - 1];
    if Acceptable(turn, before) && Fair(turn, last) && !Answers(before, last.id) {
      forall i, j | 0 <= i < j < |answers| ensures answers[i].id != answers[j].id {
        assert answers[i] == before[i];
      }
    }
    if Acceptable(turn, answers) {
      forall i | 0 <= i < |before| ensures Fair(turn, before[i]) && before[i].id != last.id {
        assert before[i] == answers[i];
      }
    }
  }

  lemma AnswersAppend(a: seq<Answer>, b: seq<Answer>, id: string)
    ensures Answers(a + b, id) <==> Answers(a, id) || Answers(b, id)
  {
    if Answers(a, id) {
      var i :| 0 <= i < |a| && a[i].id == id;
      assert (a + b)[i] == a[i];
    }
    if Answers(b, id) {
      var i :| 0 <= i < |b| && b[i].id == id;
      assert (a + b)[|a| + i] == b[i];
    }
  }

  /** Among fair answers, a path is filled exactly when it was answered. */
  lemma {:induction false} FairAnswersBind(turn: PartialTurn, answers: seq<Answer>)
    requires Acceptable(turn, answers)
    ensures AnsweredProvider(answers).Some? <==> Answers(answers, ProviderAnswer)
    ensures AnsweredPrompt(answers).Some? <==> Answers(answers, PromptAnswer)
    ensures Answers(answers, ProviderAnswer) ==> turn.provider.None?
    ensures Answers(answers, PromptAnswer) ==> turn.prompt.None?
  {
    if answers != [] {
      var before, last := answers[..|answers| - 1], answers[|answers| - 1];
      AcceptableSplits(turn, answers);
      FairAnswersBind(turn, before);
      assert answers == before + [last];
      AnswersAppend(before, [last], ProviderAnswer);
      AnswersAppend(before, [last], PromptAnswer);
      assert [last][0] == last;
    }
  }

  /** No answer is complained about exactly when all of them are acceptable. */
  lemma {:induction false} ComplaintsMeanUnfair(turn: PartialTurn, answers: seq<Answer>)
    ensures Complaints(turn, answers) == [] <==> Acceptable(turn, answers)
  {
    if answers != [] {
      var before, last := answers[..|answers| - 1], answers[|answers| - 1];
      ComplaintsMeanUnfair(turn, before);
      AcceptableSplits(turn, answers);
      AnswersFillGaps(turn, before);
      if Acceptable(turn, before) {
        FairAnswersBind(turn, before);
      }
    }
  }

  // ---------------------------------------------------------------------------------------------
  // The three outcomes
  // ---------------------------------------------------------------------------------------------

  ghost predicate NoConflict(l: Layers) {
    l.profile.Some? && l.profile.value.provider.Some? && l.explicit.provider.Some? ==>
      l.profile.value.provider == l.explicit.provider
  }

  /** Every bound value is well formed, and a resumed session belongs to the provider. */
  predicate WellFormed(turn: PartialTurn) {
    && (turn.prompt.Some? ==> !Blank(turn.prompt.value))
    && (turn.model.name.Some? ==> !Blank(turn.model.name.value))
    && (turn.context.resume.Some? ==>
          var resume := turn.context.resume.value;
          !Blank(resume.value) && resume.value[0] != '-'
            && (turn.provider.Some? ==> resume.provider == turn.provider.value))
  }

  /** What a caller can see: the layers agree on the provider, the answers are acceptable, and every
      value bound in the overlay is well formed. */
  ghost predicate Coherent(l: Layers) {
    NoConflict(l) && Acceptable(Below(l), l.answers) && WellFormed(Final(l))
  }

  lemma FaultsMeanMalformed(turn: PartialTurn)
    ensures ValueFaults(turn) == [] <==> WellFormed(turn)
  {
  }

  /** Exactly one outcome each: refused when incoherent, otherwise finished or asking. */
  lemma OutcomeIsExact(l: Layers)
    ensures Outcome(l).Invalid? <==> !Coherent(l)
    ensures Outcome(l).Missing? <==> Coherent(l) && (Final(l).provider.None? || Final(l).prompt.None?)
    ensures Outcome(l).Complete? <==> Coherent(l) && Final(l).provider.Some? && Final(l).prompt.Some?
  {
    ComplaintsMeanUnfair(Below(l), l.answers);
    FaultsMeanMalformed(Final(l));
  }

  /** The answers as a layer of their own. */
  function AnswerLayer(answers: seq<Answer>): PartialTurn {
    Unbound.(provider := AnsweredProvider(answers), prompt := AnsweredPrompt(answers))
  }

  /** The layers of a pass that ended on `provider`, lowest precedence first. */
  function Precedence(l: Layers, provider: Option<ProviderId>): seq<PartialTurn> {
    [Baseline(l, provider), Given(l.applicationDefaults), Given(l.profile), l.explicit, AnswerLayer(l.answers)]
  }

  lemma StackOfFive(l: Layers, provider: Option<ProviderId>)
    ensures Stack(Precedence(l, provider)) == Over(Over(Baseline(l, provider), Upper(l)), AnswerLayer(l.answers))
  {
    var b, a, p, e, top := Baseline(l, provider), Given(l.applicationDefaults), Given(l.profile), l.explicit,
      AnswerLayer(l.answers);
    var all := Precedence(l, provider);
    assert all[..4] == [b, a, p, e] && [b, a, p, e][..3] == [b, a, p] && [b, a, p][..2] == [b, a] && [b, a][..1] == [b];
    assert Stack([b]) == Over(Stack([]), b) && Stack([b, a]) == Over(Stack([b]), a);
    assert Stack([b, a, p]) == Over(Stack([b, a]), p);
    assert Stack([b, a, p, e]) == Over(Stack([b, a, p]), e);
    UnboundIsNeutral(b);
    UpperUnfolds(l);
    OverAssociates(b, a, p);
    OverAssociates(b, Over(a, p), e);
  }

  /** A pass that is not refused has, at every path, the highest-precedence binding among the
      answers, the explicit request, the profile, the application defaults and the baseline of
      exactly the provider it settled on. */
  lemma EveryPathHoldsTheHighest(l: Layers, path: Path)
    requires !Outcome(l).Invalid?
    ensures Binding(Final(l), path) == Highest(Precedence(l, Final(l).provider), path)
  {
    OutcomeIsExact(l);
    SelectionAgrees(l);
    AnswersFillGaps(Below(l), l.answers);
    FairAnswersBind(Below(l), l.answers);
    StackOfFive(l, Selected(l));
    OverBinds(Below(l), AnswerLayer(l.answers), path);
    StackBindsHighest(Precedence(l, Selected(l)), path);
    FillIsALayer(l, path);
  }

  lemma FillIsALayer(l: Layers, path: Path)
    requires Acceptable(Below(l), l.answers)
    ensures Binding(Final(l), path) == OrElse(Binding(AnswerLayer(l.answers), path), Binding(Below(l), path))
  {
    AnswersFillGaps(Below(l), l.answers);
    FairAnswersBind(Below(l), l.answers);
  }

  // ---------------------------------------------------------------------------------------------
  // Convergence
  // ---------------------------------------------------------------------------------------------

  /** What a pass asks for. */
  function Asked(l: Layers): set<string> {
    match Outcome(l)
    case Missing(_, requirements) => set r | r in requirements :: r.id
    case _ => {}
  }

  lemma RequirementIds(turn: PartialTurn)
    ensures var ids := set r | r in Requirements(turn) :: r.id;
      && (ProviderAnswer in ids <==> turn.provider.None?)
      && (PromptAnswer in ids <==> turn.prompt.None?)
      && ids <= {ProviderAnswer, PromptAnswer}
    ensures forall r | r in Requirements(turn) :: !r.sensitive
  {
    var r := Requirement(ProviderAnswer, KnownProvider, false, None);
    var q := Requirement(PromptAnswer, FreeText, false, turn.provider);
    assert turn.provider.None? ==> r in Requirements(turn);
    assert turn.prompt.None? ==> q in Requirements(turn);
  }

  /** A pass asks for exactly what is unbound among the provider and the prompt, and never for
      anything sensitive. */
  lemma AskedIsUnbound(l: Layers)
    ensures Outcome(l).Missing? ==> Outcome(l).requirements == Requirements(Final(l)) != []
    ensures Outcome(l).Missing? ==> forall r | r in Outcome(l).requirements :: !r.sensitive
    ensures ProviderAnswer in Asked(l) <==> Outcome(l).Missing? && Final(l).provider.None?
    ensures PromptAnswer in Asked(l) <==> Outcome(l).Missing? && Final(l).prompt.None?
    ensures Asked(l) <= {ProviderAnswer, PromptAnswer}
  {
    RequirementIds(Final(l));
  }

  function Extended(l: Layers, more: seq<Answer>): Layers {
    l.(answers := l.answers + more)
  }

  lemma {:induction false} EarlierAnswersStand(a: seq<Answer>, b: seq<Answer>)
    ensures AnsweredProvider(a + b) == OrElse(AnsweredProvider(a), AnsweredProvider(b))
    ensures AnsweredPrompt(a + b) == OrElse(AnsweredPrompt(a), AnsweredPrompt(b))
  {
    if b == [] {
      assert a + b == a;
    } else {
      EarlierAnswersStand(a, b[..|b| - 1]);
      assert (a + b)[..|a + b| - 1] == a + b[..|b| - 1];
    }
  }

  /** More answers can only settle more: what the first pass had settled stays as it was. */
  lemma MoreAnswersBindMore(l: Layers, more: seq<Answer>)
    ensures Final(l).provider.Some? ==> Final(Extended(l, more)).provider == Final(l).provider
    ensures Final(l).prompt.Some? ==> Final(Extended(l, more)).prompt.Some?
  {
    var m := Extended(l, more);
    EarlierAnswersStand(l.answers, more);
    SelectionAgrees(l);
    SelectionAgrees(m);
    assert Upper(m) == Upper(l);
    AnswersFillGaps(Below(l), l.answers);
    AnswersFillGaps(Below(m), m.answers);
    OverBinds(Baseline(l, Selected(l)), Upper(l), Prompt);
    OverBinds(Baseline(m, Selected(m)), Upper(m), Prompt);
  }

  /** An answer that is fair in the second pass was asked for in the first. */
  lemma FairMeansAsked(l: Layers, more: seq<Answer>)
    requires more != [] && Outcome(l).Missing? && Outcome(Extended(l, more)).Missing?
    ensures more[0].id in Asked(l) && more[0].id !in Asked(Extended(l, more))
  {
    var m := Extended(l, more);
    var last := more[0];
    OutcomeIsExact(l);
    OutcomeIsExact(m);
    AskedIsUnbound(l);
    AskedIsUnbound(m);
    assert m.answers[|l.answers|] == last && Fair(Below(m), last);
    FairAnswersBind(Below(m), m.answers);
    AnswersFillGaps(Below(m), m.answers);
    assert Answers(m.answers, last.id);
    NotYetAnswered(l, more);
  }

  lemma NotYetAnswered(l: Layers, more: seq<Answer>)
    requires more != [] && Acceptable(Below(l), l.answers) && Acceptable(Below(Extended(l, more)), l.answers + more)
    ensures more[0].id == ProviderAnswer ==> Final(l).provider.None?
    ensures more[0].id == PromptAnswer ==> Final(l).prompt.None?
  {
    var m := Extended(l, more);
    var last := more[0];
    assert m.answers[|l.answers|] == last && Fair(Below(m), last);
    assert !Answers(l.answers, last.id) by {
      forall i | 0 <= i < |l.answers| ensures l.answers[i].id != last.id {
        assert m.answers[i] == l.answers[i];
      }
    }
    FairAnswersBind(Below(l), l.answers);
    AnswersFillGaps(Below(l), l.answers);
    EarlierAnswersStand(l.answers, more);
    OverBinds(Baseline(m, Selected(m)), Upper(m), Provider);
    OverBinds(Baseline(m, Selected(m)), Upper(m), Prompt);
    OverBinds(Baseline(l, Selected(l)), Upper(l), Provider);
    OverBinds(Baseline(l, Selected(l)), Upper(l), Prompt);
  }

  /** If two passes both ask, the second with further answers, the second asks for strictly less. */
  lemma AskingConverges(l: Layers, more: seq<Answer>)
    requires more != [] && Outcome(l).Missing? && Outcome(Extended(l, more)).Missing?
    ensures Asked(Extended(l, more)) < Asked(l)
  {
    AskedIsUnbound(l);
    AskedIsUnbound(Extended(l, more));
    MoreAnswersBindMore(l, more);
    FairMeansAsked(l, more);
  }

  // ---------------------------------------------------------------------------------------------
  // When answering everything is enough
  // ---------------------------------------------------------------------------------------------

  /** Exactly the requirements of a pass, each answered once. */
  ghost predicate Covers(l: Layers, more: seq<Answer>) {
    && (forall id :: id in Asked(l) <==> Answers(more, id))
    && (forall i, j | 0 <= i < j < |more| :: more[i].id != more[j].id)
  }

  ghost predicate ProvidersKnown(more: seq<Answer>) {
    forall i | 0 <= i < |more| && more[i].id == ProviderAnswer :: ParseProvider(more[i].value).Some?
  }

  /** The baseline of the chosen provider does not bind a prompt that was asked for. */
  ghost predicate BaselineLeavesPrompt(m: Layers) {
    Answers(m.answers, PromptAnswer) ==> Baseline(m, Selected(m)).prompt.None?
  }

  /** The layers overlaid with the answers on top, whether or not a pass would accept them. */
  function Overlay(m: Layers): PartialTurn {
    Over(Below(m), AnswerLayer(m.answers))
  }

  lemma FillIsTheOverlay(m: Layers)
    requires Acceptable(Below(m), m.answers)
    ensures Final(m) == Overlay(m)
  {
    forall path ensures Binding(Final(m), path) == Binding(Overlay(m), path) {
      FillIsALayer(m, path);
      OverBinds(Below(m), AnswerLayer(m.answers), path);
    }
    EqualByPaths(Final(m), Overlay(m));
  }

  lemma BelowBindings(l: Layers)
    ensures Below(l).provider == Upper(l).provider
    ensures Below(l).prompt == OrElse(Upper(l).prompt, Baseline(l, Selected(l)).prompt)
  {
  }

  /** The answers already accepted stay fair unless the chosen baseline takes the prompt. */
  lemma StillFair(l: Layers, more: seq<Answer>, answer: Answer)
    requires Fair(Below(l), answer)
    requires answer.id == PromptAnswer ==> Baseline(Extended(l, more), Selected(Extended(l, more))).prompt.None?
    ensures Fair(Below(Extended(l, more)), answer)
  {
    BelowBindings(l);
    BelowBindings(Extended(l, more));
  }

  lemma NewlyFair(l: Layers, more: seq<Answer>, answer: Answer)
    requires answer.id in Asked(l) && (answer.id == ProviderAnswer ==> ParseProvider(answer.value).Some?)
    requires answer.id == PromptAnswer ==> Baseline(Extended(l, more), Selected(Extended(l, more))).prompt.None?
    ensures Fair(Below(Extended(l, more)), answer)
    ensures !Answers(l.answers, answer.id)
  {
    AskedIsUnbound(l);
    OutcomeIsExact(l);
    BelowBindings(l);
    BelowBindings(Extended(l, more));
    AnswersFillGaps(Below(l), l.answers);
    FairAnswersBind(Below(l), l.answers);
  }

  ghost predicate EachFair(turn: PartialTurn, answers: seq<Answer>) {
    forall i | 0 <= i < |answers| :: Fair(turn, answers[i])
  }

  ghost predicate EachOnce(answers: seq<Answer>) {
    forall i, j | 0 <= i < j < |answers| :: answers[i].id != answers[j].id
  }

  lemma OldAndNew(l: Layers, more: seq<Answer>)
    requires EachFair(Below(Extended(l, more)), l.answers) && EachFair(Below(Extended(l, more)), more)
    requires EachOnce(l.answers) && EachOnce(more)
    requires forall j | 0 <= j < |more| :: !Answers(l.answers, more[j].id)
    ensures Acceptable(Below(Extended(l, more)), l.answers + more)
  {
    var n, all := |l.answers|, l.answers + more;
    forall i, j | 0 <= i < j < |all| ensures all[i].id != all[j].id {
      assert i < n ==> all[i] == l.answers[i];
      assert i >= n ==> all[i] == more[i - n];
      assert j >= n ==> all[j] == more[j - n];
    }
  }

  lemma OldStayFair(l: Layers, more: seq<Answer>)
    requires EachFair(Below(l), l.answers) && BaselineLeavesPrompt(Extended(l, more))
    ensures EachFair(Below(Extended(l, more)), l.answers)
  {
    forall i | 0 <= i < |l.answers| ensures Fair(Below(Extended(l, more)), l.answers[i]) {
      AnswersAppend(l.answers, more, l.answers[i].id);
      StillFair(l, more, l.answers[i]);
    }
  }

  lemma NewAreFair(l: Layers, more: seq<Answer>)
    requires Covers(l, more) && ProvidersKnown(more) && BaselineLeavesPrompt(Extended(l, more))
    ensures EachFair(Below(Extended(l, more)), more)
    ensures forall j | 0 <= j < |more| :: !Answers(l.answers, more[j].id)
  {
    forall j | 0 <= j < |more| ensures Fair(Below(Extended(l, more)), more[j]) && !Answers(l.answers, more[j].id) {
      assert Answers(more, more[j].id);
      AnswersAppend(l.answers, more, more[j].id);
      NewlyFair(l, more, more[j]);
    }
  }

  lemma AllFair(l: Layers, more: seq<Answer>)
    requires Outcome(l).Missing? && Covers(l, more) && ProvidersKnown(more) && BaselineLeavesPrompt(Extended(l, more))
    ensures Acceptable(Below(Extended(l, more)), l.answers + more)
  {
    OutcomeIsExact(l);
    OldStayFair(l, more);
    NewAreFair(l, more);
    OldAndNew(l, more);
  }

  lemma EverythingBound(l: Layers, more: seq<Answer>)
    requires Outcome(l).Missing? && Covers(l, more) && Acceptable(Below(Extended(l, more)), l.answers + more)
    ensures Final(Extended(l, more)).provider.Some? && Final(Extended(l, more)).prompt.Some?
  {
    var m := Extended(l, more);
    AskedIsUnbound(l);
    MoreAnswersBindMore(l, more);
    AnswersAppend(l.answers, more, ProviderAnswer);
    AnswersAppend(l.answers, more, PromptAnswer);
    AnsweredIsBound(m);
  }

  lemma AnsweredIsBound(m: Layers)
    requires Acceptable(Below(m), m.answers)
    ensures Answers(m.answers, ProviderAnswer) ==> Final(m).provider.Some?
    ensures Answers(m.answers, PromptAnswer) ==> Final(m).prompt.Some?
  {
    AnswersFillGaps(Below(m), m.answers);
    FairAnswersBind(Below(m), m.answers);
  }

  lemma AcceptedAnswersAreGood(l: Layers, more: seq<Answer>)
    requires Acceptable(Below(Extended(l, more)), l.answers + more)
    ensures ProvidersKnown(more) && BaselineLeavesPrompt(Extended(l, more))
  {
    var m := Extended(l, more);
    forall i | 0 <= i < |more| && more[i].id == ProviderAnswer ensures ParseProvider(more[i].value).Some? {
      assert m.answers[|l.answers| + i] == more[i] && Fair(Below(m), more[i]);
    }
    FairAnswersBind(Below(m), m.answers);
    BelowBindings(m);
  }

  /** Answering every requirement once finishes the plan exactly when a provider answer names a
      provider, the chosen provider's baseline binds no prompt that was answered (an earlier answer
      included), and the overlaid values are well formed. */
  lemma AnsweringAllCompletesIff(l: Layers, more: seq<Answer>)
    requires Outcome(l).Missing? && Covers(l, more)
    ensures var m := Extended(l, more);
      Outcome(m).Complete? <==> ProvidersKnown(more) && BaselineLeavesPrompt(m) && WellFormed(Overlay(m))
  {
    var m := Extended(l, more);
    OutcomeIsExact(m);
    if Outcome(m).Complete? {
      AcceptedAnswersAreGood(l, more);
      FillIsTheOverlay(m);
    } else if ProvidersKnown(more) && BaselineLeavesPrompt(m) {
      AllFair(l, more);
      EverythingBound(l, more);
      FillIsTheOverlay(m);
    }
  }
}
