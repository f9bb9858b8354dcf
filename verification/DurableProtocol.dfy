/** The protocol that drives the durable store, and what holds over every run of it. */
module DurableProtocol {
  import opened Collections
  import opened DurableLog

  datatype StepJobRef = StepJobRef(schemaVersion: nat, runId: string, stepId: string)

  const JOB_REF_SCHEMA_VERSION: nat := 1

  datatype DeadlineDecision = NoDeadline | Remaining(milliseconds: nat) | Expired

  /** How much is left of a recorded deadline: nothing exactly when `now` has reached it. */
  function ReconstructDeadline(notAfter: Option<nat>, now: nat): (r: DeadlineDecision)
    ensures r.Expired? <==> notAfter.Some? && notAfter.value <= now
    ensures r.Remaining? ==> notAfter == Some(now + r.milliseconds) && r.milliseconds > 0
    ensures r.NoDeadline? <==> notAfter.None?
  {
    match notAfter
    case None => NoDeadline
    case Some(t) => if t <= now then Expired else Remaining(t - now)
  }

  datatype Refusal =
    | WrongSchema
    | RunCancelled(reason: string)
    | NotFrozen
    | DifferentWork
    | AwaitingReconciliation(reason: string)
    | AlreadyLaunched(epoch: Epoch)
    | DeadlineElapsed

  datatype Admission = Run(epoch: Epoch) | AlreadySettled | Refused(why: Refusal)

  function KeyOf(job: StepJobRef): StepKey {
    StepKey(job.runId, job.stepId)
  }

  /** What a delivered reference is answered with, first matching reason first. */
  function Decide(s: Store, job: StepJobRef, fingerprint: string, now: nat): Admission {
    var key := KeyOf(job);
    if job.schemaVersion != JOB_REF_SCHEMA_VERSION then Refused(WrongSchema)
    else if job.runId in s.cancelledRuns then Refused(RunCancelled(s.cancelledRuns[job.runId]))
    else if key !in s.steps then Refused(NotFrozen)
    else
      var view := s.steps[key];
      if view.fingerprint != fingerprint then Refused(DifferentWork)
      else match view.state
        case Done(_) => AlreadySettled
        case InDoubt(_, reason) => Refused(AwaitingReconciliation(reason))
        case LaunchedBy(epoch) => Refused(AlreadyLaunched(epoch))
        case ClaimedBy(_) => DecideRunnable(view, now)
        case Pending => DecideRunnable(view, now)
  }

  function DecideRunnable(view: StepView, now: nat): Admission {
    if ReconstructDeadline(view.notAfter, now).Expired? then Refused(DeadlineElapsed) else Run(view.highestEpoch + 1)
  }

  const LostAfterLaunch := "worker lost ownership after launch"

  /** A lost claim is re-fenced under the next epoch; a lost launch is left in doubt. */
  function RecoverView(view: StepView): StepView {
    match view.state
    case ClaimedBy(epoch) => view.(state := ClaimedBy(epoch + 1), highestEpoch := epoch + 1)
    case LaunchedBy(epoch) => view.(state := InDoubt(epoch, LostAfterLaunch))
    case _ => view
  }

  function Recovered(s: Store): Store {
    s.(steps := map key | key in s.steps :: RecoverView(s.steps[key]))
  }

  /** The record that recovery appends for one lost step. */
  function RecoveryRecord(key: StepKey, state: StepState, worker: string): Record
    requires state.ClaimedBy? || state.LaunchedBy?
  {
    if state.ClaimedBy? then Claimed(key, state.epoch + 1, worker) else Uncertain(key, state.epoch, LostAfterLaunch)
  }

  // ---------------------------------------------------------------------------------------------
  // Runs: any host, any workers, including ones that came back from the dead
  // ---------------------------------------------------------------------------------------------

  datatype Op =
    | Freeze(key: StepKey, fingerprint: string, notAfter: Option<nat>)
    | Admit(job: StepJobRef, fingerprint: string, worker: string, now: nat)
    | Launch(key: StepKey, epoch: Epoch)
    | Settle(key: StepKey, epoch: Epoch, result: TerminalRecord)
    | Doubt(key: StepKey, epoch: Epoch, reason: string)
    | Reconcile(key: StepKey, decision: Reconciliation, author: string)
    | CancelRun(runId: string, reason: string)
    | RecoverLost(worker: string)
    | RecoverOne(key: StepKey, worker: string)
    | Reopen

  function After(s: Store, op: Op): Store {
    match op
    case Freeze(key, fingerprint, notAfter) => Apply(s, Frozen(key, "repository-review", "v1", fingerprint, notAfter))
    case Admit(job, fingerprint, worker, now) =>
      var decision := Decide(s, job, fingerprint, now);
      if decision.Run? then Apply(s, Claimed(KeyOf(job), decision.epoch, worker)) else s
    case Launch(key, epoch) => Apply(s, Launched(key, epoch))
    case Settle(key, epoch, result) => Apply(s, Settled(key, epoch, result))
    case Doubt(key, epoch, reason) => Apply(s, Uncertain(key, epoch, reason))
    case Reconcile(key, decision, author) => Apply(s, Reconciled(key, decision, author))
    case CancelRun(runId, reason) => Apply(s, CancelRequested(runId, reason))
    case RecoverLost(_) => Recovered(s)
    case RecoverOne(key, _) => if key in s.steps then s.(steps := s.steps[key := RecoverView(s.steps[key])]) else s
    case Reopen => s
  }

  /** The epoch an operation hands out for `key`, if any. */
  function Issued(s: Store, op: Op, key: StepKey): Option<Epoch> {
    match op
    case Admit(job, fingerprint, _, now) =>
      var decision := Decide(s, job, fingerprint, now);
      if KeyOf(job) == key && decision.Run? then Some(decision.epoch) else None
    case RecoverLost(_) =>
      if key in s.steps && s.steps[key].state.ClaimedBy? then Some(s.steps[key].state.epoch + 1) else None
    case RecoverOne(k, _) =>
      if k == key && key in s.steps && s.steps[key].state.ClaimedBy? then Some(s.steps[key].state.epoch + 1) else None
    case _ => None
  }

  /** Workers launch and settle only under epochs they were handed, however long ago. */
  ghost predicate Entitled(states: seq<Store>, ops: seq<Op>, i: nat)
    requires i < |ops| < |states|
  {
    ops[i].Launch? || ops[i].Settle? ==>
      exists h :: 0 <= h < i && Issued(states[h], ops[h], ops[i].key) == Some(ops[i].epoch)
  }

  ghost predicate StepAt(states: seq<Store>, ops: seq<Op>, i: nat)
    requires i < |ops| < |states|
  {
    states[i + 1] == After(states[i], ops[i]) && Entitled(states, ops, i)
  }

  ghost predicate TraceUpTo(states: seq<Store>, ops: seq<Op>, n: nat) {
    && n <= |ops| < |states| && states[0] == Empty
    && forall i: nat | i < n :: StepAt(states, ops, i)
  }

  ghost predicate Trace(states: seq<Store>, ops: seq<Op>) {
    |states| == |ops| + 1 && TraceUpTo(states, ops, |ops|)
  }

  /** A claimed or launched step is claimed or launched under its highest epoch. */
  ghost predicate Fenced(view: StepView) {
    && (view.state.ClaimedBy? ==> view.state.epoch == view.highestEpoch)
    && (view.state.LaunchedBy? ==> view.state.epoch == view.highestEpoch)
  }

  ghost predicate AllFenced(s: Store) {
    forall key :: FencedAt(s, key)
  }

  ghost predicate FencedAt(s: Store, key: StepKey) {
    key in s.steps ==> Fenced(s.steps[key])
  }

  /** One step for one key: epochs never go back, and an issued epoch becomes the highest. */
  lemma EpochStep(s: Store, op: Op, key: StepKey)
    requires AllFenced(s) && key in s.steps
    ensures key in After(s, op).steps && After(s, op).steps[key].highestEpoch >= s.steps[key].highestEpoch
    ensures Issued(s, op, key).Some? ==>
      && Issued(s, op, key).value == s.steps[key].highestEpoch + 1
      && After(s, op).steps[key].highestEpoch == Issued(s, op, key).value
  {
    assert FencedAt(s, key);
  }

  /** An operation keeps the fence, provided a launch is not from a future epoch. */
  lemma FenceStep(s: Store, op: Op)
    requires AllFenced(s)
    requires op.Launch? && op.key in s.steps ==> op.epoch <= s.steps[op.key].highestEpoch
    ensures AllFenced(After(s, op))
  {
    forall key ensures FencedAt(After(s, op), key) {
      assert FencedAt(s, key);
    }
  }

  /** An epoch handed out by operation `h` is at most the highest one before operation `i`. */
  ghost predicate BoundAt(states: seq<Store>, ops: seq<Op>, h: nat, i: nat, key: StepKey)
    requires h < |ops| < |states| && i < |states|
  {
    Issued(states[h], ops[h], key).Some? ==>
      key in states[i].steps && Issued(states[h], ops[h], key).value <= states[i].steps[key].highestEpoch
  }

  lemma BoundStep(states: seq<Store>, ops: seq<Op>, h: nat, i: nat, key: StepKey)
    requires h <= i < |ops| < |states| && AllFenced(states[i]) && states[i + 1] == After(states[i], ops[i])
    requires h < i ==> BoundAt(states, ops, h, i, key)
    ensures BoundAt(states, ops, h, i + 1, key)
  {
    if key in states[i].steps {
      EpochStep(states[i], ops[i], key);
    }
  }

  lemma EntitledLaunch(states: seq<Store>, ops: seq<Op>, i: nat)
    requires i < |ops| < |states| && Entitled(states, ops, i) && ops[i].Launch?
    requires forall h: nat, key | h < i :: BoundAt(states, ops, h, i, key)
    ensures ops[i].key in states[i].steps && ops[i].epoch <= states[i].steps[ops[i].key].highestEpoch
  {
    var h: nat :| h < i && Issued(states[h], ops[h], ops[i].key) == Some(ops[i].epoch);
    assert BoundAt(states, ops, h, i, ops[i].key);
  }

  /** At every moment of every run the fence holds and every epoch handed out is at most the
      highest. */
  lemma {:induction false} EveryRunIsFenced(states: seq<Store>, ops: seq<Op>, i: nat)
    requires TraceUpTo(states, ops, i)
    ensures AllFenced(states[i])
    ensures forall h: nat, key | h < i :: BoundAt(states, ops, h, i, key)
  {
    if i > 0 {
      EveryRunIsFenced(states, ops, i - 1);
      assert StepAt(states, ops, i - 1);
      if ops[i - 1].Launch? {
        EntitledLaunch(states, ops, i - 1);
      }
      FenceStep(states[i - 1], ops[i - 1]);
      forall h: nat, key | h < i ensures BoundAt(states, ops, h, i, key) {
        BoundStep(states, ops, h, i - 1, key);
      }
    }
  }

  /** Every epoch handed out for a step, by admission or by recovery, exceeds all earlier ones. */
  lemma EpochsIncrease(states: seq<Store>, ops: seq<Op>, h: nat, i: nat, key: StepKey)
    requires Trace(states, ops) && h < i < |ops|
    requires Issued(states[h], ops[h], key).Some? && Issued(states[i], ops[i], key).Some?
    ensures Issued(states[h], ops[h], key).value < Issued(states[i], ops[i], key).value
  {
    EveryRunIsFenced(states, ops, i);
    assert BoundAt(states, ops, h, i, key);
    EpochStep(states[i], ops[i], key);
  }

  /** A worker whose claim was superseded can neither launch nor settle. */
  lemma SupersededWorkerChangesNothing(states: seq<Store>, ops: seq<Op>, h: nat, i: nat, key: StepKey, epoch: Epoch)
    requires Trace(states, ops) && h < i < |ops|
    requires Issued(states[h], ops[h], key).Some? && epoch < Issued(states[h], ops[h], key).value
    requires ops[i] == Launch(key, epoch) || (ops[i].Settle? && ops[i].key == key && ops[i].epoch == epoch)
    ensures states[i + 1] == states[i]
  {
    EveryRunIsFenced(states, ops, i);
    assert BoundAt(states, ops, h, i, key);
    assert StepAt(states, ops, i);
    assert states[i].steps == states[i].steps[key := states[i].steps[key]];
  }

  predicate PastLaunch(s: Store, key: StepKey) {
    key in s.steps && (s.steps[key].state.LaunchedBy? || s.steps[key].state.InDoubt? || s.steps[key].state.Done?)
  }

  predicate Clears(op: Op, key: StepKey) {
    op.Reconcile? && op.key == key && op.decision.ProvedNoEffects?
  }

  lemma {:induction false} StaysPastLaunch(states: seq<Store>, ops: seq<Op>, key: StepKey, i: nat, j: nat)
    requires Trace(states, ops) && i <= j < |states| && PastLaunch(states[i], key)
    requires forall k | i <= k < j :: !Clears(ops[k], key)
    ensures PastLaunch(states[j], key)
    ensures states[i].steps[key].state.Done? ==> states[j].steps[key].state.Done?
  {
    if i < j {
      StaysPastLaunch(states, ops, key, i, j - 1);
      assert StepAt(states, ops, j - 1);
    }
  }

  /** Once a launch was accepted, no delivery of that step is told to run until somebody has
      recorded that it had no effects. */
  lemma NoSilentRelaunch(states: seq<Store>, ops: seq<Op>, key: StepKey, i: nat, j: nat)
    requires Trace(states, ops) && i < j < |ops|
    requires ops[i].Launch? && ops[i].key == key && key in states[i + 1].steps
    requires states[i + 1].steps[key].state == LaunchedBy(ops[i].epoch)
    requires ops[j].Admit? && KeyOf(ops[j].job) == key
    requires forall k | i < k < j :: !Clears(ops[k], key)
    ensures !Decide(states[j], ops[j].job, ops[j].fingerprint, ops[j].now).Run? && states[j + 1] == states[j]
  {
    assert StepAt(states, ops, i) && StepAt(states, ops, j);
    StaysPastLaunch(states, ops, key, i + 1, j);
  }

  predicate Accepts(before: Store, op: Op, after: Store, key: StepKey) {
    && op.Settle? && op.key == key && key in before.steps && key in after.steps
    && !before.steps[key].state.Done? && after.steps[key].state == Done(op.result)
  }

  /** Between two accepted results of one step there is a recorded decision that the first had no
      effects; without one, at most one result is ever accepted. */
  lemma OneAcceptedResult(states: seq<Store>, ops: seq<Op>, key: StepKey, i: nat, j: nat)
    requires Trace(states, ops) && i < j < |ops|
    requires Accepts(states[i], ops[i], states[i + 1], key) && Accepts(states[j], ops[j], states[j + 1], key)
    ensures exists k :: i < k < j && Clears(ops[k], key)
  {
    if forall k | i < k < j :: !Clears(ops[k], key) {
      StaysPastLaunch(states, ops, key, i + 1, j);
      assert false;
    }
  }

  // ---------------------------------------------------------------------------------------------
  // Which settlements count
  // ---------------------------------------------------------------------------------------------

  /** The epoch most recently handed out for a step in the first `n` operations, or zero. */
  ghost function LastIssued(states: seq<Store>, ops: seq<Op>, key: StepKey, n: nat): Epoch
    requires n <= |ops| < |states|
  {
    if n == 0 then 0
    else
      IssuedOr(Issued(states[n - 1], ops[n - 1], key), LastIssued(states, ops, key, n - 1))
  }

  function IssuedOr(issued: Option<Epoch>, before: Epoch): Epoch {
    if issued.Some? then issued.value else before
  }

  /** In every run a step's highest epoch is the last one handed out for it. */
  lemma {:induction false} HighestIsLastIssued(states: seq<Store>, ops: seq<Op>, key: StepKey, n: nat)
    requires Trace(states, ops) && n <= |ops|
    ensures key in states[n].steps ==> states[n].steps[key].highestEpoch == LastIssued(states, ops, key, n)
    ensures key !in states[n].steps ==> LastIssued(states, ops, key, n) == 0
  {
    if n > 0 {
      HighestIsLastIssued(states, ops, key, n - 1);
      EveryRunIsFenced(states, ops, n - 1);
      assert StepAt(states, ops, n - 1);
      if ops[n - 1].Launch? {
        EntitledLaunch(states, ops, n - 1);
      }
    }
  }

  ghost predicate NoneIssued(states: seq<Store>, ops: seq<Op>, key: StepKey, h: nat, i: nat)
    requires i <= |ops| < |states|
  {
    forall k: nat | h < k < i :: Issued(states[k], ops[k], key).None?
  }

  lemma {:induction false} LastIssuedStays(states: seq<Store>, ops: seq<Op>, key: StepKey, h: nat, i: nat)
    requires h < i <= |ops| < |states| && Issued(states[h], ops[h], key).Some? && NoneIssued(states, ops, key, h, i)
    ensures LastIssued(states, ops, key, i) == Issued(states[h], ops[h], key).value
  {
    if h + 1 < i {
      LastIssuedStays(states, ops, key, h, i - 1);
    }
  }

  /** In every run, a settlement under an epoch once handed out is accepted exactly when no later
      epoch was handed out for the step and the step has no result. Lost claims, lost launches and
      decisions about them do not enter into it. */
  lemma SettlementCountsIff(states: seq<Store>, ops: seq<Op>, key: StepKey, h: nat, i: nat)
    requires Trace(states, ops) && h < i < |ops| && Issued(states[h], ops[h], key).Some?
    requires ops[i].Settle? && ops[i].key == key && ops[i].epoch == Issued(states[h], ops[h], key).value
    ensures key in states[i].steps
    ensures states[i + 1] != states[i] <==> NoneIssued(states, ops, key, h, i) && !states[i].steps[key].state.Done?
    ensures states[i + 1] != states[i] <==> Accepts(states[i], ops[i], states[i + 1], key)
  {
    EveryRunIsFenced(states, ops, i);
    assert BoundAt(states, ops, h, i, key);
    HighestIsLastIssued(states, ops, key, i);
    assert StepAt(states, ops, i);
    if NoneIssued(states, ops, key, h, i) {
      LastIssuedStays(states, ops, key, h, i);
    } else {
      var k: nat :| h < k < i && Issued(states[k], ops[k], key).Some?;
      EpochsIncrease(states, ops, h, k, key);
      SupersededWorkerChangesNothing(states, ops, k, i, key, ops[i].epoch);
    }
    if states[i + 1] == states[i] {
      assert states[i + 1].steps[key] == states[i].steps[key];
    }
  }

  /** Operations that could give `key` a result. */
  predicate Decides(op: Op, key: StepKey) {
    (op.Settle? || op.Reconcile?) && op.key == key
  }

  lemma {:induction false} StaysUndecided(states: seq<Store>, ops: seq<Op>, key: StepKey, j: nat, i: nat)
    requires Trace(states, ops) && j <= i <= |ops| && key in states[j].steps && !states[j].steps[key].state.Done?
    requires forall k | j <= k < i :: !Decides(ops[k], key)
    ensures key in states[i].steps && !states[i].steps[key].state.Done?
  {
    if j < i {
      StaysUndecided(states, ops, key, j, i - 1);
      assert StepAt(states, ops, i - 1);
    }
  }

  /** Deciding that a lost launch had no effects fences nobody: until something else decides the step,
      a worker from before the decision can settle exactly as long as no epoch has been handed out
      since its own. */
  lemma ClearedWorkerMaySettle(states: seq<Store>, ops: seq<Op>, key: StepKey, h: nat, j: nat, i: nat)
    requires Trace(states, ops) && h < j < i < |ops| && Issued(states[h], ops[h], key).Some? && Clears(ops[j], key)
    requires ops[i].Settle? && ops[i].key == key && ops[i].epoch == Issued(states[h], ops[h], key).value
    requires forall k | j < k < i :: !Decides(ops[k], key)
    ensures Accepts(states[i], ops[i], states[i + 1], key) <==> NoneIssued(states, ops, key, h, i)
  {
    EveryRunIsFenced(states, ops, j);
    assert BoundAt(states, ops, h, j, key);
    assert StepAt(states, ops, j);
    StaysUndecided(states, ops, key, j + 1, i);
    SettlementCountsIff(states, ops, key, h, i);
  }

  const AKey: StepKey := StepKey("run", "step")
  const AJob: StepJobRef := StepJobRef(JOB_REF_SCHEMA_VERSION, "run", "step")

  /** A store that knows one step. */
  function OneStep(state: StepState, highest: Epoch): Store {
    Store(map[AKey := StepView(state, "work", None, highest)], map[])
  }

  const LostRunOps: seq<Op> := [
    Freeze(AKey, "work", None), Admit(AJob, "work", "lost", 0), Launch(AKey, 1), RecoverLost("host"),
    Reconcile(AKey, ProvedNoEffects, "operator"), Settle(AKey, 1, Succeeded([]))]

  const LostRunStates: seq<Store> := [
    Empty, OneStep(Pending, 0), OneStep(ClaimedBy(1), 1), OneStep(LaunchedBy(1), 1),
    OneStep(InDoubt(1, LostAfterLaunch), 1),
    OneStep(Pending, 1), OneStep(Done(Succeeded([])), 1)]

  lemma LostRunStarts()
    ensures After(Empty, LostRunOps[0]) == OneStep(Pending, 0)
    ensures After(OneStep(Pending, 0), LostRunOps[1]) == OneStep(ClaimedBy(1), 1)
    ensures Issued(OneStep(Pending, 0), LostRunOps[1], AKey) == Some(1)
  {
    assert KeyOf(AJob) == AKey;
  }

  lemma LostRunLosesAndSettles()
    ensures After(OneStep(ClaimedBy(1), 1), LostRunOps[2]) == OneStep(LaunchedBy(1), 1)
    ensures After(OneStep(LaunchedBy(1), 1), LostRunOps[3]) == OneStep(InDoubt(1, LostAfterLaunch), 1)
    ensures After(OneStep(InDoubt(1, LostAfterLaunch), 1), LostRunOps[4]) == OneStep(Pending, 1)
    ensures After(OneStep(Pending, 1), LostRunOps[5]) == OneStep(Done(Succeeded([])), 1)
  {
  }

  /** The shortest such run: a launch is lost, somebody records that it had no effects, and its worker
      settles after all. */
  lemma LostWorkerSettlesAfterClearing()
    ensures Trace(LostRunStates, LostRunOps)
    ensures Clears(LostRunOps[4], AKey)
    ensures Accepts(LostRunStates[5], LostRunOps[5], LostRunStates[6], AKey)
  {
    LostRunStarts();
    LostRunLosesAndSettles();
    assert Issued(LostRunStates[1], LostRunOps[1], AKey) == Some(1);
  }
}
