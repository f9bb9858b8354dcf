/** The planning tool's round loop: one pass over the layers, one form for whatever is unbound, and
    another pass with what came back. The client and the provider planner are given by the caller. */
module Elicitation {
  import opened Collections
  import opened Partial
  import opened Resolve
  import opened Planning

  datatype FieldValue = StringField(text: string) | OtherField

  datatype Field = Field(id: string, value: FieldValue)

  /** How a client may react to one form. */
  datatype ClientReply = Unreachable | Accepted(content: seq<Field>) | Declined | Unrecognized

  datatype Refusal =
    | PlanInvalid(diagnostics: seq<Diagnostic>)
    | PlannerRefused
    | NothingAdded
    | DidNotResolve
    | SensitiveRequirement
    | ElicitationFailed
    | ClientDeclined
    | UnsupportedAction

  datatype Verdict = Launched(turn: PartialTurn) | Refused(why: Refusal)

  datatype Episode = Episode(verdict: Verdict, elicitations: nat)

  /** `client` reacts to the requirements of a round; `fits` is whether the chosen provider's planner
      can represent a complete turn. */
  datatype Setup = Setup(explicit: PartialTurn, defaults: PartialTurn, maxRounds: nat,
                         client: (nat, seq<Requirement>) -> ClientReply, fits: PartialTurn -> bool)

  function LayersAt(u: Setup, answers: seq<Answer>): Layers {
    Layers(None, Some(u.defaults), None, u.explicit, answers)
  }

  predicate HasSensitive(requirements: seq<Requirement>) {
    exists i :: 0 <= i < |requirements| && requirements[i].sensitive
  }

  /** Only the text fields of a form are answers. */
  function TextAnswers(content: seq<Field>): seq<Answer> {
    if content == [] then []
    else
      var before, last := TextAnswers(content[..|content| - 1]), content[|content| - 1];
      if last.value.StringField? then before + [Answer(last.id, last.value.text)] else before
  }

  function Elicited(requirements: seq<Requirement>, reply: ClientReply): Result<seq<Answer>, Refusal> {
    if HasSensitive(requirements) then Err(SensitiveRequirement)
    else
      match reply
      case Unreachable => Err(ElicitationFailed)
      case Declined => Err(ClientDeclined)
      case Unrecognized => Err(UnsupportedAction)
      case Accepted(content) => Ok(TextAnswers(content))
  }

  /** How one round ends: with a verdict, or with answers to go on with. */
  datatype Round = Ended(verdict: Verdict, asks: nat) | Continues(more: seq<Answer>)

  function RoundOf(u: Setup, answers: seq<Answer>, round: nat): Round {
    match Outcome(LayersAt(u, answers))
    case Complete(turn) => Ended(if u.fits(turn) then Launched(turn) else Refused(PlannerRefused), 0)
    case Invalid(diagnostics) => Ended(Refused(PlanInvalid(diagnostics)), 0)
    case Missing(_, requirements) =>
      match Elicited(requirements, u.client(round, requirements))
      case Err(why) => Ended(Refused(why), if HasSensitive(requirements) then 0 else 1)
      case Ok(more) => if more == [] then Ended(Refused(NothingAdded), 1) else Continues(more)
  }

  type Rounds = (seq<Answer>, nat) -> Round

  function RoundsOf(u: Setup): Rounds {
    (answers: seq<Answer>, round: nat) => RoundOf(u, answers, round)
  }

  /** What becomes of a plan from one round on, with `left` rounds still allowed. */
  function RunFrom(rounds: Rounds, answers: seq<Answer>, round: nat, left: nat): Episode
    decreases left
  {
    if left == 0 then Episode(Refused(DidNotResolve), 0)
    else
      match rounds(answers, round)
      case Ended(verdict, asks) => Episode(verdict, asks)
      case Continues(more) => Later(1, RunFrom(rounds, answers + more, round + 1, left - 1))
  }

  function Later(asked: nat, rest: Episode): Episode {
    rest.(elicitations := rest.elicitations + asked)
  }

  function EpisodeOf(u: Setup): Episode {
    RunFrom(RoundsOf(u), [], 0, Allowed(u))
  }

  function Allowed(u: Setup): nat {
    if u.maxRounds == 0 then 1 else u.maxRounds
  }

  /** Refuse a sensitive requirement; otherwise one form goes to the client, and of an accepted one the
      text fields come back as answers. */
  method Elicit(u: Setup, round: nat, requirements: seq<Requirement>)
    returns (r: Result<seq<Answer>, Refusal>, asks: nat)
    ensures r == Elicited(requirements, u.client(round, requirements))
    ensures asks == if HasSensitive(requirements) then 0 else 1
  {
    for i := 0 to |requirements|
      invariant forall j | 0 <= j < i :: !requirements[j].sensitive
    {
      if requirements[i].sensitive {
        return Err(SensitiveRequirement), 0;
      }
    }
    match u.client(round, requirements) {
      case Unreachable => return Err(ElicitationFailed), 1;
      case Declined => return Err(ClientDeclined), 1;
      case Unrecognized => return Err(UnsupportedAction), 1;
      case Accepted(content) =>
        var answers: seq<Answer> := [];
        for i := 0 to |content|
          invariant answers == TextAnswers(content[..i])
        {
          assert content[..i + 1][..i] == content[..i];
          if content[i].value.StringField? {
            answers := answers + [Answer(content[i].id, content[i].value.text)];
          }
        }
        assert content[..|content|] == content;
        return Ok(answers), 1;
    }
  }

  /** `rounds` tells how the rounds of `u` end. */
  ghost predicate Plays(u: Setup, rounds: Rounds) {
    forall answers, round: nat {:trigger RoundOf(u, answers, round)} ::
      rounds(answers, round) == RoundOf(u, answers, round)
  }

  /** One round: a verdict, or answers to go on with. */
  method PlayRound(u: Setup, answers: seq<Answer>, round: nat, ghost rounds: Rounds) returns (r: Round)
    requires Plays(u, rounds)
    ensures r == rounds(answers, round)
  {
    assert rounds(answers, round) == RoundOf(u, answers, round);
    var resolution := ResolveLayers(LayersAt(u, answers));
    match resolution {
      case Complete(turn) =>
        r := Ended(if u.fits(turn) then Launched(turn) else Refused(PlannerRefused), 0);
      case Invalid(diagnostics) =>
        r := Ended(Refused(PlanInvalid(diagnostics)), 0);
      case Missing(_, requirements) =>
        var more, asks := Elicit(u, round, requirements);
        r := if more.Err? then Ended(Refused(more.error), asks)
             else if more.value == [] then Ended(Refused(NothingAdded), asks)
             else Continues(more.value);
    }
  }

  /** Resolve and elicit until the plan is ready, refused or out of rounds. */
  method PlayRounds(u: Setup, allowed: nat, ghost rounds: Rounds) returns (episode: Episode)
    requires Plays(u, rounds)
    ensures episode == RunFrom(rounds, [], 0, allowed)
  {
    var answers: seq<Answer> := [];
    var asked := 0;
    for round := 0 to allowed
      invariant RunFrom(rounds, [], 0, allowed) == Later(asked, RunFrom(rounds, answers, round, allowed - round))
    {
      var played := PlayRound(u, answers, round, rounds);
      match played {
        case Ended(verdict, asks) =>
          return Episode(verdict, asked + asks);
        case Continues(more) =>
          answers := answers + more;
          asked := asked + 1;
      }
    }
    return Episode(Refused(DidNotResolve), asked);
  }

  method Run(u: Setup) returns (episode: Episode)
    ensures episode == EpisodeOf(u)
  {
    episode := PlayRounds(u, Allowed(u), RoundsOf(u));
  }

  // ---------------------------------------------------------------------------------------------
  // Convergence
  // ---------------------------------------------------------------------------------------------

  lemma AskedAtMostTwo(l: Layers)
    ensures |Asked(l)| <= 2
    ensures Outcome(l).Missing? <==> Asked(l) != {}
  {
    AskedIsUnbound(l);
    SubsetCount(Asked(l), {ProviderAnswer, PromptAnswer});
    OutcomeIsExact(l);
  }

  lemma StrictlyFewer(a: set<string>, b: set<string>)
    requires a < b || (a == {} && b != {})
    ensures |a| < |b|
  {
    SubsetCount(a, b);
  }

  lemma AskedShrinks(l: Layers, more: seq<Answer>)
    requires more != [] && Outcome(l).Missing?
    ensures |Asked(Extended(l, more))| < |Asked(l)|
  {
    AskedAtMostTwo(l);
    AskedAtMostTwo(Extended(l, more));
    if Outcome(Extended(l, more)).Missing? {
      AskingConverges(l, more);
    }
    StrictlyFewer(Asked(Extended(l, more)), Asked(l));
  }

  /** A round that ends asked no more than was missing; one that goes on leaves less missing. */
  ghost predicate Steady(rounds: Rounds, missing: seq<Answer> -> nat, answers: seq<Answer>, round: nat) {
    match rounds(answers, round)
    case Ended(verdict, asks) => asks <= missing(answers) && verdict != Refused(DidNotResolve)
    case Continues(more) => missing(answers + more) < missing(answers)
  }

  /** From any point of a run there are at most as many elicitations to come as values are missing,
      and with one round more than that the run reaches a proper verdict. */
  lemma {:induction false} RoundsToGo(rounds: Rounds, missing: seq<Answer> -> nat, answers: seq<Answer>, round: nat,
                                      left: nat)
    requires forall a, k: nat :: Steady(rounds, missing, a, k)
    ensures RunFrom(rounds, answers, round, left).elicitations <= missing(answers)
    ensures left > missing(answers) ==> RunFrom(rounds, answers, round, left).verdict != Refused(DidNotResolve)
    decreases left
  {
    assert Steady(rounds, missing, answers, round);
    if left > 0 && rounds(answers, round).Continues? {
      RoundsToGo(rounds, missing, answers + rounds(answers, round).more, round + 1, left - 1);
    }
  }

  /** How many values the next pass would ask for. */
  function Lacking(u: Setup): seq<Answer> -> nat {
    (answers: seq<Answer>) => |Asked(LayersAt(u, answers))|
  }

  lemma EndedRound(u: Setup, answers: seq<Answer>, round: nat)
    requires RoundOf(u, answers, round).Ended?
    ensures RoundOf(u, answers, round).verdict !in {Refused(SensitiveRequirement), Refused(DidNotResolve)}
    ensures RoundOf(u, answers, round).asks <= if Outcome(LayersAt(u, answers)).Missing? then 1 else 0
  {
    AskedIsUnbound(LayersAt(u, answers));
  }

  lemma RoundIsSteady(u: Setup, answers: seq<Answer>, round: nat, r: Round)
    requires r == RoundOf(u, answers, round)
    ensures match r
      case Ended(verdict, asks) => asks <= Lacking(u)(answers) && verdict != Refused(DidNotResolve)
      case Continues(more) => Lacking(u)(answers + more) < Lacking(u)(answers)
  {
    var l := LayersAt(u, answers);
    AskedAtMostTwo(l);
    if r.Ended? {
      EndedRound(u, answers, round);
    } else {
      assert LayersAt(u, answers + r.more) == Extended(l, r.more);
      AskedShrinks(l, r.more);
    }
  }

  /** Whatever the client does, it is asked at most twice, and with three rounds allowed the run
      reaches a proper verdict. */
  lemma AtMostTwoElicitations(u: Setup)
    ensures EpisodeOf(u).elicitations <= 2
    ensures u.maxRounds >= 3 ==> EpisodeOf(u).verdict != Refused(DidNotResolve)
  {
    forall a, k: nat ensures Steady(RoundsOf(u), Lacking(u), a, k) {
      RoundIsSteady(u, a, k, RoundOf(u, a, k));
    }
    RoundsToGo(RoundsOf(u), Lacking(u), [], 0, Allowed(u));
    AskedAtMostTwo(LayersAt(u, []));
  }

  /** Whatever ends a run short of running out of rounds is how some round ended. */
  lemma {:induction false} SomeRoundEnds(rounds: Rounds, answers: seq<Answer>, round: nat, left: nat)
    returns (all: seq<Answer>, last: nat)
    requires RunFrom(rounds, answers, round, left).verdict != Refused(DidNotResolve)
    ensures answers <= all && rounds(all, last).Ended?
      && rounds(all, last).verdict == RunFrom(rounds, answers, round, left).verdict
    decreases left
  {
    if rounds(answers, round).Ended? {
      all, last := answers, round;
    } else {
      all, last := SomeRoundEnds(rounds, answers + rounds(answers, round).more, round + 1, left - 1);
    }
  }

  /** The planner never marks a requirement sensitive, so that refusal does not arise; and a turn is
      only ever launched from a coherent overlay that binds a provider and a prompt. */
  lemma VerdictsAreEarned(u: Setup) returns (answers: seq<Answer>)
    ensures EpisodeOf(u).verdict != Refused(SensitiveRequirement)
    ensures EpisodeOf(u).verdict.Launched? ==>
      var l := LayersAt(u, answers);
      Coherent(l) && EpisodeOf(u).verdict.turn == Final(l) && Final(l).provider.Some? && Final(l).prompt.Some?
        && u.fits(Final(l))
  {
    answers := [];
    if EpisodeOf(u).verdict != Refused(DidNotResolve) {
      var round;
      answers, round := SomeRoundEnds(RoundsOf(u), [], 0, Allowed(u));
      EndedRound(u, answers, round);
      OutcomeIsExact(LayersAt(u, answers));
    }
  }

  // ---------------------------------------------------------------------------------------------
  // Two rounds are not enough
  // ---------------------------------------------------------------------------------------------

  /** A client that answers the first question of every form. */
  function OneAtATime(round: nat, requirements: seq<Requirement>): ClientReply {
    if requirements != [] && requirements[0].id == ProviderAnswer
    then Accepted([Field(ProviderAnswer, StringField("codex"))])
    else Accepted([Field(PromptAnswer, StringField("go"))])
  }

  function Patient(maxRounds: nat): Setup {
    Setup(Unbound, Unbound, maxRounds, OneAtATime, turn => true)
  }

  lemma PatientAsks(l: Layers)
    requires l.providerDefaults.None? && l.applicationDefaults == Some(Unbound) && l.profile.None?
      && l.explicit == Unbound
    requires l.answers == [] || l.answers == [Answer(ProviderAnswer, "codex")]
    ensures Outcome(l).Missing? && Outcome(l).requirements != []
    ensures Outcome(l).requirements[0].id == if l.answers == [] then ProviderAnswer else PromptAnswer
  {
    UpperUnfolds(l);
    AnswersFillGaps(Below(l), l.answers);
    OutcomeIsExact(l);
    AskedIsUnbound(l);
    if l.answers != [] {
      assert l.answers[..0] == [];
    }
  }

  lemma PatientRound(maxRounds: nat, answers: seq<Answer>, round: nat)
    requires answers == [] || answers == [Answer(ProviderAnswer, "codex")]
    ensures RoundOf(Patient(maxRounds), answers, round).Continues?
    ensures answers == [] ==> RoundOf(Patient(maxRounds), answers, round).more == [Answer(ProviderAnswer, "codex")]
  {
    var l := LayersAt(Patient(maxRounds), answers);
    PatientAsks(l);
    AskedIsUnbound(l);
    var field := Field(if answers == [] then ProviderAnswer else PromptAnswer,
                       StringField(if answers == [] then "codex" else "go"));
    OneField(field);
    assert OneAtATime(round, Outcome(l).requirements) == Accepted([field]);
  }

  lemma OneField(field: Field)
    requires field.value.StringField?
    ensures TextAnswers([field]) == [Answer(field.id, field.value.text)]
  {
    assert [field][..0] == [];
  }

  lemma TwoContinuations(rounds: Rounds, first: seq<Answer>, left: nat)
    requires rounds([], 0) == Continues(first) && rounds(first, 1).Continues? && left <= 2
    ensures RunFrom(rounds, [], 0, left).verdict == Refused(DidNotResolve)
  {
    assert [] + first == first;
    if left == 2 {
      assert RunFrom(rounds, first, 1, 1).verdict == Refused(DidNotResolve);
    }
  }

  lemma PatientRunsOut(maxRounds: nat)
    requires maxRounds <= 2
    ensures EpisodeOf(Patient(maxRounds)).verdict == Refused(DidNotResolve)
  {
    var first := [Answer(ProviderAnswer, "codex")];
    PatientRound(maxRounds, [], 0);
    PatientRound(maxRounds, first, 1);
    TwoContinuations(RoundsOf(Patient(maxRounds)), first, Allowed(Patient(maxRounds)));
  }

  /** Running out of rounds can happen exactly when fewer than three are allowed: two values may be asked for one at a
      time, and a third pass always decides. */
  lemma ThreeRoundsDecide(maxRounds: nat)
    ensures (exists u: Setup :: u.maxRounds == maxRounds && EpisodeOf(u).verdict == Refused(DidNotResolve)) <==>
      maxRounds < 3
  {
    if maxRounds < 3 {
      PatientRunsOut(maxRounds);
      assert Patient(maxRounds).maxRounds == maxRounds;
    } else {
      forall u: Setup | u.maxRounds == maxRounds ensures EpisodeOf(u).verdict != Refused(DidNotResolve) {
        AtMostTwoElicitations(u);
      }
    }
  }
}
