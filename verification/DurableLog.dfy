/** The durable host's append-only log and the state folded from it. */
module DurableLog {
  import opened Collections

  /** Orders the claims of one step: what a later epoch may still do, an earlier one may not. */
  type Epoch = nat

  datatype StepKey = StepKey(runId: string, stepId: string)

  datatype TerminalRecord = Succeeded(output: seq<Byte>) | Failed(kind: string, message: string)

  datatype Reconciliation =
    | AdoptCompleted(output: seq<Byte>)
    | ProvedNoEffects
    | Abandoned(note: string)

  datatype Record =
    | Frozen(key: StepKey, workflowId: string, workflowVersion: string, fingerprint: string, notAfter: Option<nat>)
    | Claimed(key: StepKey, epoch: Epoch, worker: string)
    | Launched(key: StepKey, epoch: Epoch)
    | Settled(key: StepKey, epoch: Epoch, result: TerminalRecord)
    | Uncertain(key: StepKey, epoch: Epoch, reason: string)
    | Reconciled(key: StepKey, decision: Reconciliation, author: string)
    | CancelRequested(runId: string, reason: string)

  datatype StepState =
    | Pending
    | ClaimedBy(epoch: Epoch)
    | LaunchedBy(epoch: Epoch)
    | Done(result: TerminalRecord)
    | InDoubt(epoch: Epoch, reason: string)

  datatype StepView = StepView(state: StepState, fingerprint: string, notAfter: Option<nat>, highestEpoch: Epoch)

  datatype Store = Store(steps: map<StepKey, StepView>, cancelledRuns: map<string, string>)

  const Empty := Store(map[], map[])

  function Decided(decision: Reconciliation): StepState {
    match decision
    case AdoptCompleted(output) => Done(Succeeded(output))
    case ProvedNoEffects => Pending
    case Abandoned(note) => Done(Failed("abandoned", note))
  }

  /** How a record other than a freeze or a cancellation changes the view it names. */
  function Revise(view: StepView, r: Record): StepView {
    match r
    case Claimed(_, epoch, _) =>
      if epoch >= view.highestEpoch && !view.state.Done? then view.(highestEpoch := epoch, state := ClaimedBy(epoch))
        else view
    case Launched(_, epoch) =>
      if epoch >= view.highestEpoch && !view.state.Done? then view.(state := LaunchedBy(epoch)) else view
    case Settled(_, epoch, result) =>
      if epoch >= view.highestEpoch && !view.state.Done? then view.(state := Done(result)) else view
    case Uncertain(_, epoch, reason) =>
      if !view.state.Done? then view.(state := InDoubt(epoch, reason)) else view
    case Reconciled(_, decision, _) => view.(state := Decided(decision))
    case _ => view
  }

  function Apply(s: Store, r: Record): Store {
    match r
    case Frozen(key, _, _, fingerprint, notAfter) =>
      if key in s.steps then s else s.(steps := s.steps[key := StepView(Pending, fingerprint, notAfter, 0)])
    case CancelRequested(runId, reason) => s.(cancelledRuns := s.cancelledRuns[runId := reason])
    case _ => if r.key in s.steps then s.(steps := s.steps[r.key := Revise(s.steps[r.key], r)]) else s
  }

  /** The state after the first `n` records. */
  function Fold(log: seq<Record>, n: nat): Store
    requires n <= |log|
  {
    if n == 0 then Empty else Apply(Fold(log, n - 1), log[n - 1])
  }

  function FoldAll(log: seq<Record>): Store {
    Fold(log, |log|)
  }

  lemma {:induction false} FoldPrefix(log: seq<Record>, more: seq<Record>, n: nat)
    requires n <= |log|
    ensures Fold(log + more, n) == Fold(log, n)
  {
    if n > 0 {
      FoldPrefix(log, more, n - 1);
    }
  }

  lemma FoldAppend(log: seq<Record>, r: Record)
    ensures Fold(log + [r], |log| + 1) == Apply(Fold(log, |log|), r)
  {
    FoldPrefix(log, [r], |log|);
  }

  // ---------------------------------------------------------------------------------------------
  // What a log means, read off its records rather than folded
  // ---------------------------------------------------------------------------------------------

  predicate Freezes(r: Record, key: StepKey) {
    r.Frozen? && r.key == key
  }

  ghost predicate FirstFrozen(log: seq<Record>, key: StepKey, f: nat) {
    f < |log| && Freezes(log[f], key) && forall k | 0 <= k < f :: !Freezes(log[k], key)
  }

  predicate Claims(r: Record, key: StepKey) {
    r.Claimed? && r.key == key
  }

  /** Every claim of `key` after `f` and before `n` is of an epoch no later than `epoch`. */
  ghost predicate NoLaterClaim(log: seq<Record>, key: StepKey, f: nat, n: nat, epoch: Epoch)
    requires n <= |log|
  {
    forall k | f < k < n && Claims(log[k], key) :: log[k].epoch <= epoch
  }

  /** A result that was not fenced out, reading from record `f` on, where `base` was the highest epoch:
      it is of no earlier epoch, and no claim since was of a later one. */
  ghost predicate InTime(log: seq<Record>, key: StepKey, f: nat, base: Epoch, j: nat) {
    && f < j < |log| && log[j].Settled? && log[j].key == key && base <= log[j].epoch
    && NoLaterClaim(log, key, f, j, log[j].epoch)
  }

  /** The first result in time is the answer. */
  ghost predicate Answer(log: seq<Record>, key: StepKey, f: nat, base: Epoch, j: nat) {
    InTime(log, key, f, base, j) && forall k | f < k < j :: !InTime(log, key, f, base, k)
  }

  predicate Reconciles(r: Record, key: StepKey) {
    r.Reconciled? && r.key == key
  }

  /** No decision about `key` is recorded after record `f` and before `n`. */
  ghost predicate Undecided(log: seq<Record>, key: StepKey, f: nat, n: nat)
    requires n <= |log|
  {
    forall k | f < k < n :: !Reconciles(log[k], key)
  }

  lemma {:induction false} NeverFrozen(log: seq<Record>, key: StepKey, n: nat)
    requires n <= |log| && forall k | 0 <= k < n :: !Freezes(log[k], key)
    ensures key !in Fold(log, n).steps
  {
    if n > 0 {
      NeverFrozen(log, key, n - 1);
    }
  }

  /** A step read on from record `f`, where its view was `start`: what was frozen stays, and then there
      is either the answer or the highest claim so far. */
  ghost predicate ViewIs(log: seq<Record>, key: StepKey, f: nat, start: StepView, n: nat, view: StepView)
    requires f < n <= |log|
  {
    && view.fingerprint == start.fingerprint && view.notAfter == start.notAfter
    && (view.state.Done? ==> AnsweredBy(log, key, f, start.highestEpoch, n, view.state.result))
    && (!view.state.Done? ==> Unanswered(log, key, f, start.highestEpoch, n))
    && (!view.state.Done? ==> HighestClaim(log, key, f, start.highestEpoch, n, view.highestEpoch))
  }

  ghost predicate AnsweredBy(log: seq<Record>, key: StepKey, f: nat, base: Epoch, n: nat, result: TerminalRecord) {
    exists j: nat :: j < n && Answer(log, key, f, base, j) && log[j].result == result
  }

  ghost predicate Unanswered(log: seq<Record>, key: StepKey, f: nat, base: Epoch, n: nat) {
    forall j | f < j < n :: !InTime(log, key, f, base, j)
  }

  /** `epoch` is the greatest claimed since `f`, or `base` when nothing later was. */
  ghost predicate HighestClaim(log: seq<Record>, key: StepKey, f: nat, base: Epoch, n: nat, epoch: Epoch)
    requires n <= |log|
  {
    && NoLaterClaim(log, key, f, n, epoch) && base <= epoch
    && (epoch == base || exists k :: f < k < n && Claims(log[k], key) && log[k].epoch == epoch)
  }

  /** Folding reads a step exactly this way from any record that leaves it without a result, as far as
      no decision about it is recorded. */
  lemma {:induction false} ViewFromLog(log: seq<Record>, key: StepKey, f: nat, n: nat)
    requires f < n <= |log| && Undecided(log, key, f, n)
    requires key in Fold(log, f + 1).steps && !Fold(log, f + 1).steps[key].state.Done?
    ensures key in Fold(log, n).steps && ViewIs(log, key, f, Fold(log, f + 1).steps[key], n, Fold(log, n).steps[key])
  {
    if n > f + 1 {
      ViewFromLog(log, key, f, n - 1);
    }
  }

  /** Comparing with the highest claim is comparing with every claim. */
  lemma SettledInTime(log: seq<Record>, key: StepKey, f: nat, base: Epoch, n: nat, highest: Epoch)
    requires f < n < |log| && log[n].Settled? && log[n].key == key && HighestClaim(log, key, f, base, n, highest)
    ensures InTime(log, key, f, base, n) <==> log[n].epoch >= highest
  {
  }

  /** `view` is what follows from `start` at record `f`: done exactly when some later result was in
      time, and then with the first such result. */
  ghost predicate ReadFrom(log: seq<Record>, key: StepKey, f: nat, start: StepView, view: StepView) {
    && view.fingerprint == start.fingerprint && view.notAfter == start.notAfter
    && (view.state.Done? <==> exists j: nat :: Answer(log, key, f, start.highestEpoch, j))
    && forall j: nat | Answer(log, key, f, start.highestEpoch, j) :: view.state == Done(log[j].result)
  }

  lemma WholeReading(log: seq<Record>, key: StepKey, f: nat)
    requires f < |log| && Undecided(log, key, f, |log|)
    requires key in Fold(log, f + 1).steps && !Fold(log, f + 1).steps[key].state.Done?
    ensures key in Fold(log, |log|).steps
    ensures ReadFrom(log, key, f, Fold(log, f + 1).steps[key], Fold(log, |log|).steps[key])
  {
    ViewFromLog(log, key, f, |log|);
    AnswerUnique(log, key, f, Fold(log, f + 1).steps[key].highestEpoch);
  }

  /** A log that records no decision about a step since it was frozen: the step is known exactly when it
      was frozen, what it is was fixed by its first freeze, it is done exactly when some result was in
      time, and its result is that of the first such record. */
  lemma LogMeaning(log: seq<Record>, key: StepKey)
    requires forall f: nat | FirstFrozen(log, key, f) :: Undecided(log, key, f, |log|)
    ensures key in Fold(log, |log|).steps <==> exists f: nat :: FirstFrozen(log, key, f)
    ensures forall f: nat | FirstFrozen(log, key, f) ::
      ReadFrom(log, key, f, StepView(Pending, log[f].fingerprint, log[f].notAfter, 0), Fold(log, |log|).steps[key])
  {
    if forall k | 0 <= k < |log| :: !Freezes(log[k], key) {
      NeverFrozen(log, key, |log|);
    } else {
      var f := FindFreeze(log, key, |log|);
      NeverFrozen(log, key, f);
      WholeReading(log, key, f);
      forall f': nat | FirstFrozen(log, key, f') ensures f' == f {
        assert !(f' < f) && !(f < f');
      }
    }
  }

  lemma {:induction false} DecidedStays(log: seq<Record>, key: StepKey, r: nat, n: nat)
    requires r < n <= |log| && Undecided(log, key, r, n)
    requires key in Fold(log, r + 1).steps && Fold(log, r + 1).steps[key].state.Done?
    ensures key in Fold(log, n).steps && Fold(log, n).steps[key] == Fold(log, r + 1).steps[key]
  {
    if r + 1 < n {
      DecidedStays(log, key, r, n - 1);
    }
  }

  /** A log whose last decision about a frozen step is record `r`: a decision that gives a result is
      final, and one that clears the step starts the same reading anew, from the highest epoch accepted
      until then. */
  lemma LogMeaningSinceDecision(log: seq<Record>, key: StepKey, r: nat)
    requires r < |log| && Reconciles(log[r], key) && Undecided(log, key, r, |log|) && key in Fold(log, r).steps
    ensures key in Fold(log, |log|).steps
    ensures var before, view := Fold(log, r).steps[key], Fold(log, |log|).steps[key];
      if Decided(log[r].decision).Done? then view == before.(state := Decided(log[r].decision))
      else ReadFrom(log, key, r, before, view)
  {
    if Decided(log[r].decision).Done? {
      DecidedStays(log, key, r, |log|);
    } else {
      WholeReading(log, key, r);
    }
  }

  lemma {:induction false} FindFreeze(log: seq<Record>, key: StepKey, n: nat) returns (f: nat)
    requires n <= |log| && exists k :: 0 <= k < n && Freezes(log[k], key)
    ensures FirstFrozen(log, key, f) && f < n
  {
    if exists k :: 0 <= k < n - 1 && Freezes(log[k], key) {
      f := FindFreeze(log, key, n - 1);
    } else {
      f := n - 1;
    }
  }

  lemma AnswerUnique(log: seq<Record>, key: StepKey, f: nat, base: Epoch)
    ensures forall i: nat, j: nat | Answer(log, key, f, base, i) && Answer(log, key, f, base, j) :: i == j
  {
    forall i: nat, j: nat | Answer(log, key, f, base, i) && Answer(log, key, f, base, j) ensures i == j {
      assert !(i < j) && !(j < i);
    }
  }

  /** What was frozen never changes, and an answer changes only through a recorded decision. */
  lemma {:induction false} AnswerIsFinal(log: seq<Record>, key: StepKey, n: nat, m: nat)
    requires n <= m <= |log| && key in Fold(log, n).steps
    ensures key in Fold(log, m).steps
    ensures var before, after := Fold(log, n).steps[key], Fold(log, m).steps[key];
      && after.fingerprint == before.fingerprint && after.notAfter == before.notAfter
      && (before.state.Done? && after.state != before.state ==>
          exists k :: n <= k < m && log[k].Reconciled? && log[k].key == key)
  {
    if n < m {
      AnswerIsFinal(log, key, n, m - 1);
    }
  }
}
