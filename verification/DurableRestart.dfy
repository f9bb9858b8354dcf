/** Runs of the durable host across restarts: its state lives in the file, a process may die in the
    middle of writing a record, and the next one replays what it finds. */
module DurableRestart {
  import opened Collections
  import opened DurableLog
  import opened DurableProtocol
  import opened LogFile
  import opened Whitespace

  datatype Host = Host(file: string, store: Store)

  /** An operation that returned; one that died after writing `n` characters, and the reopening after
      it; or a process that died between operations. */
  datatype Event = Do(op: Op) | Torn(op: Op, n: nat) | Restart

  /** The record an operation appends, if any. Sweeping up lost steps is one such operation a step. */
  function Records(s: Store, op: Op): seq<Record> {
    match op
    case Freeze(key, fingerprint, notAfter) => [Frozen(key, "repository-review", "v1", fingerprint, notAfter)]
    case Admit(job, fingerprint, worker, now) =>
      var decision := Decide(s, job, fingerprint, now);
      if decision.Run? then [Claimed(KeyOf(job), decision.epoch, worker)] else []
    case Launch(key, epoch) => [Launched(key, epoch)]
    case Settle(key, epoch, result) => [Settled(key, epoch, result)]
    case Doubt(key, epoch, reason) => [Uncertain(key, epoch, reason)]
    case Reconcile(key, decision, author) => [Reconciled(key, decision, author)]
    case CancelRun(runId, reason) => [CancelRequested(runId, reason)]
    case RecoverOne(key, worker) =>
      if key in s.steps && (s.steps[key].state.ClaimedBy? || s.steps[key].state.LaunchedBy?)
      then [RecoveryRecord(key, s.steps[key].state, worker)] else []
    case RecoverLost(_) => []
    case Reopen => []
  }

  /** Recovery takes over a claim only under the highest epoch, which the fence guarantees. */
  lemma RecordsAreTheOperation(s: Store, op: Op)
    requires AllFenced(s) && !op.RecoverLost?
    ensures |Records(s, op)| <= 1
    ensures After(s, op) == if Records(s, op) == [] then s else Apply(s, Records(s, op)[0])
  {
    if op.RecoverOne? && op.key in s.steps {
      assert FencedAt(s, op.key);
      assert Records(s, op) == [] ==> s.steps[op.key := s.steps[op.key]] == s.steps;
    }
  }

  function Line(c: Codec, s: Store, op: Op): string {
    Written(c, Records(s, op))
  }

  function Reopened(c: Codec, file: string): Host {
    Host(file, FoldAll(Replay(c, file)))
  }

  ghost predicate Possible(c: Codec, h: Host, e: Event) {
    && (e.Do? ==> !e.op.RecoverLost?)
    && (e.Torn? ==> !e.op.RecoverLost? && e.n <= |Line(c, h.store, e.op)|)
  }

  ghost function Next(c: Codec, h: Host, e: Event): Host
    requires Possible(c, h, e)
  {
    match e
    case Do(op) => Host(h.file + Line(c, h.store, op), After(h.store, op))
    case Torn(op, n) => Reopened(c, h.file + Line(c, h.store, op)[..n])
    case Restart => Reopened(c, h.file)
  }

  /** Workers launch and settle only under epochs that some admission or recovery returned to them. */
  ghost predicate Authorized(hosts: seq<Host>, events: seq<Event>, i: nat)
    requires i < |events| < |hosts|
  {
    !events[i].Restart? && (events[i].op.Launch? || events[i].op.Settle?) ==>
      exists k :: 0 <= k < i && events[k].Do?
        && Issued(hosts[k].store, events[k].op, events[i].op.key) == Some(events[i].op.epoch)
  }

  ghost predicate HostStep(c: Codec, hosts: seq<Host>, events: seq<Event>, i: nat)
    requires i < |events| < |hosts|
  {
    Possible(c, hosts[i], events[i]) && hosts[i + 1] == Next(c, hosts[i], events[i]) && Authorized(hosts, events, i)
  }

  ghost predicate HostRun(c: Codec, hosts: seq<Host>, events: seq<Event>) {
    && |hosts| == |events| + 1 && hosts[0] == Host("", Empty)
    && forall i: nat | i < |events| :: HostStep(c, hosts, events, i)
  }

  /** Every process of the run found a newline-terminated file. */
  ghost predicate NeverTorn(hosts: seq<Host>) {
    forall i | 0 <= i < |hosts| :: Terminated(hosts[i].file)
  }

  ghost predicate InStep(c: Codec, h: Host) {
    Terminated(h.file) && h.store == FoldAll(Replay(c, h.file)) && AllFenced(h.store)
  }

  // ---------------------------------------------------------------------------------------------
  // Whole lines survive
  // ---------------------------------------------------------------------------------------------

  /** What an event amounts to when it leaves whole lines: a torn write either happened or did not. */
  function Amounts(e: Event): Op {
    match e
    case Do(op) => op
    case Torn(op, n) => if n == 0 then Reopen else op
    case Restart => Reopen
  }

  lemma AppendFolds(c: Codec, file: string, log: seq<Record>)
    requires Sound(c) && Terminated(file) && |log| <= 1
    ensures FoldAll(Replay(c, file + Written(c, log))) ==
      if log == [] then FoldAll(Replay(c, file)) else Apply(FoldAll(Replay(c, file)), log[0])
    ensures Terminated(file + Written(c, log))
  {
    ReplayAfterAppends(c, file, log);
    AppendedIsTerminated(c, file, log);
    FoldAtMostOne(Replay(c, file), log);
  }

  lemma AppendedIsTerminated(c: Codec, file: string, log: seq<Record>)
    requires Terminated(file)
    ensures Terminated(file + Written(c, log))
  {
    WrittenIsTerminated(c, log);
    assert Written(c, log) == "" ==> file + Written(c, log) == file;
  }

  lemma FoldAtMostOne(before: seq<Record>, log: seq<Record>)
    requires |log| <= 1
    ensures FoldAll(before + log) == if log == [] then FoldAll(before) else Apply(FoldAll(before), log[0])
  {
    if log != [] {
      assert log == [log[0]];
      FoldAppend(before, log[0]);
    } else {
      assert before + log == before;
    }
  }

  /** A cut line ends the file properly only if nothing or all of it was written. */
  lemma TornIsUnterminated(c: Codec, file: string, r: Record, n: nat)
    requires Sound(c) && Terminated(file) && n <= |Written(c, [r])|
    ensures Written(c, [r]) == c.encode(r) + "\n"
    ensures Terminated(file + Written(c, [r])[..n]) <==> n == 0 || n == |Written(c, [r])|
  {
    var line := c.encode(r) + "\n";
    assert Written(c, [r]) == line + Written(c, []);
    var text := file + line[..n];
    assert ReadsBack(c, r);
    if 0 < n < |line| {
      assert text[|text| - 1] == c.encode(r)[n - 1];
    } else if n == |line| {
      assert text[|text| - 1] == line[|line| - 1];
    }
  }

  lemma DoneStep(c: Codec, h: Host, op: Op)
    requires Sound(c) && InStep(c, h) && !op.RecoverLost?
    ensures After(h.store, op) == FoldAll(Replay(c, h.file + Line(c, h.store, op)))
    ensures Terminated(h.file + Line(c, h.store, op))
  {
    RecordsAreTheOperation(h.store, op);
    AppendFolds(c, h.file, Records(h.store, op));
  }

  lemma TornStep(c: Codec, h: Host, op: Op, n: nat)
    requires Sound(c) && InStep(c, h) && !op.RecoverLost? && n <= |Line(c, h.store, op)|
    requires Terminated(h.file + Line(c, h.store, op)[..n])
    ensures FoldAll(Replay(c, h.file + Line(c, h.store, op)[..n])) == After(h.store, Amounts(Torn(op, n)))
  {
    WholeOrNothing(c, h, op, n);
    if n > 0 {
      DoneStep(c, h, op);
    }
  }

  lemma CleanStep(c: Codec, h: Host, e: Event)
    requires Sound(c) && InStep(c, h) && Possible(c, h, e) && Terminated(Next(c, h, e).file)
    ensures Next(c, h, e).store == After(h.store, Amounts(e))
    ensures Next(c, h, e).store == FoldAll(Replay(c, Next(c, h, e).file))
  {
    match e {
      case Do(op) => DoneStep(c, h, op);
      case Torn(op, n) => TornStep(c, h, op, n);
      case Restart =>
    }
  }

  lemma WholeOrNothing(c: Codec, h: Host, op: Op, n: nat)
    requires Sound(c) && InStep(c, h) && !op.RecoverLost? && n <= |Line(c, h.store, op)|
    requires Terminated(h.file + Line(c, h.store, op)[..n])
    ensures h.file + Line(c, h.store, op)[..n] == if n == 0 then h.file else h.file + Line(c, h.store, op)
  {
    var log := Records(h.store, op);
    RecordsAreTheOperation(h.store, op);
    if log != [] {
      assert log == [log[0]];
      TornIsUnterminated(c, h.file, log[0], n);
    }
    assert n == |Line(c, h.store, op)| ==> Line(c, h.store, op)[..n] == Line(c, h.store, op);
  }

  ghost function Stores(hosts: seq<Host>): seq<Store> {
    seq(|hosts|, i requires 0 <= i < |hosts| => hosts[i].store)
  }

  ghost function Operations(events: seq<Event>): seq<Op> {
    seq(|events|, i requires 0 <= i < |events| => Amounts(events[i]))
  }

  lemma AuthorizedIsEntitled(c: Codec, hosts: seq<Host>, events: seq<Event>, i: nat)
    requires HostRun(c, hosts, events) && i < |events|
    ensures Entitled(Stores(hosts), Operations(events), i)
  {
    var states, ops := Stores(hosts), Operations(events);
    assert HostStep(c, hosts, events, i);
    if ops[i].Launch? || ops[i].Settle? {
      var k :| 0 <= k < i && events[k].Do? && Issued(hosts[k].store, events[k].op, ops[i].key) == Some(ops[i].epoch);
      assert Issued(states[k], ops[k], ops[i].key) == Some(ops[i].epoch);
    }
  }

  lemma HostStepIsStep(c: Codec, hosts: seq<Host>, events: seq<Event>, i: nat)
    requires Sound(c) && HostRun(c, hosts, events) && NeverTorn(hosts) && i < |events| && InStep(c, hosts[i])
    ensures StepAt(Stores(hosts), Operations(events), i)
    ensures Terminated(hosts[i + 1].file) && hosts[i + 1].store == FoldAll(Replay(c, hosts[i + 1].file))
  {
    assert HostStep(c, hosts, events, i);
    CleanStep(c, hosts[i], events[i]);
    AuthorizedIsEntitled(c, hosts, events, i);
  }

  lemma TraceGrows(states: seq<Store>, ops: seq<Op>, n: nat)
    requires n < |ops| < |states| && TraceUpTo(states, ops, n) && StepAt(states, ops, n)
    ensures TraceUpTo(states, ops, n + 1)
  {
  }

  lemma FencedAfterTrace(hosts: seq<Host>, events: seq<Event>, n: nat)
    requires n <= |events| < |hosts| && TraceUpTo(Stores(hosts), Operations(events), n)
    ensures AllFenced(hosts[n].store)
  {
    EveryRunIsFenced(Stores(hosts), Operations(events), n);
    assert Stores(hosts)[n] == hosts[n].store;
  }

  lemma {:induction false} PrefixIsTrace(c: Codec, hosts: seq<Host>, events: seq<Event>, n: nat)
    requires Sound(c) && HostRun(c, hosts, events) && NeverTorn(hosts) && n <= |events|
    ensures TraceUpTo(Stores(hosts), Operations(events), n) && InStep(c, hosts[n])
  {
    if n == 0 {
    } else {
      PrefixIsTrace(c, hosts, events, n - 1);
      HostStepIsStep(c, hosts, events, n - 1);
      TraceGrows(Stores(hosts), Operations(events), n - 1);
      FencedAfterTrace(hosts, events, n);
    }
  }

  /** As long as every process finds whole lines, a run with crashes and restarts is, store by store, a
      run without them: so all that holds of runs holds across restarts. */
  lemma RestartsAreInvisible(c: Codec, hosts: seq<Host>, events: seq<Event>)
    requires Sound(c) && HostRun(c, hosts, events) && NeverTorn(hosts)
    ensures Trace(Stores(hosts), Operations(events))
    ensures forall i | 0 <= i < |hosts| :: InStep(c, hosts[i])
  {
    PrefixIsTrace(c, hosts, events, |events|);
    forall i | 0 <= i < |hosts| ensures InStep(c, hosts[i]) {
      PrefixIsTrace(c, hosts, events, i);
    }
  }

  /** Epochs handed out before and after any number of such restarts still increase. */
  lemma EpochsIncreaseAcrossRestarts(c: Codec, hosts: seq<Host>, events: seq<Event>, h: nat, i: nat, key: StepKey)
    requires Sound(c) && HostRun(c, hosts, events) && NeverTorn(hosts) && h < i < |events|
    requires events[h].Do? && Issued(hosts[h].store, events[h].op, key).Some?
    requires events[i].Do? && Issued(hosts[i].store, events[i].op, key).Some?
    ensures Issued(hosts[h].store, events[h].op, key).value < Issued(hosts[i].store, events[i].op, key).value
  {
    RestartsAreInvisible(c, hosts, events);
    EpochsIncrease(Stores(hosts), Operations(events), h, i, key);
  }

  lemma RelaunchRefused(hosts: seq<Host>, events: seq<Event>, key: StepKey, i: nat, j: nat)
    requires Trace(Stores(hosts), Operations(events)) && i < j < |events| < |hosts|
    requires events[i].Do? && events[i].op.Launch? && events[i].op.key == key && key in hosts[i + 1].store.steps
    requires hosts[i + 1].store.steps[key].state == LaunchedBy(events[i].op.epoch)
    requires events[j].Do? && events[j].op.Admit? && KeyOf(events[j].op.job) == key
    requires forall k | i < k < j :: !Clears(Amounts(events[k]), key)
    ensures !Decide(hosts[j].store, events[j].op.job, events[j].op.fingerprint, events[j].op.now).Run?
  {
    NoSilentRelaunch(Stores(hosts), Operations(events), key, i, j);
  }

  /** And a launch that was accepted before them is not forgotten. */
  lemma NoSilentRelaunchAcrossRestarts(c: Codec, hosts: seq<Host>, events: seq<Event>, key: StepKey, i: nat, j: nat)
    requires Sound(c) && HostRun(c, hosts, events) && NeverTorn(hosts) && i < j < |events|
    requires events[i].Do? && events[i].op.Launch? && events[i].op.key == key && key in hosts[i + 1].store.steps
    requires hosts[i + 1].store.steps[key].state == LaunchedBy(events[i].op.epoch)
    requires events[j].Do? && events[j].op.Admit? && KeyOf(events[j].op.job) == key
    requires forall k | i < k < j :: !Clears(Amounts(events[k]), key)
    ensures !Decide(hosts[j].store, events[j].op.job, events[j].op.fingerprint, events[j].op.now).Run?
  {
    RestartsAreInvisible(c, hosts, events);
    RelaunchRefused(hosts, events, key, i, j);
  }

  // ---------------------------------------------------------------------------------------------
  // Torn lines
  // ---------------------------------------------------------------------------------------------

  /** A write of `op` is cut after `n` characters, the next process performs `next`, and another one
      takes over. */
  ghost function Survivor(c: Codec, h: Host, op: Op, n: nat, next: Op): Host
    requires Possible(c, h, Torn(op, n)) && !next.RecoverLost?
  {
    Next(c, Next(c, Next(c, h, Torn(op, n)), Do(next)), Restart)
  }

  ghost predicate Tears(c: Codec, h: Host, op: Op, n: nat, next: Op) {
    && Sound(c) && InStep(c, h) && |Records(h.store, op)| == 1 && Possible(c, h, Torn(op, n)) && !next.RecoverLost?
    && AllFenced(Next(c, h, Torn(op, n)).store) && |Records(Next(c, h, Torn(op, n)).store, next)| == 1
  }

  lemma LostText(c: Codec, file: string, log: seq<Record>, log': seq<Record>, n: nat)
    requires Sound(c) && Terminated(file) && |log| == 1 && |log'| == 1 && n <= |Written(c, log)|
    requires !Terminated(file + Written(c, log)[..n])
    ensures Replay(c, file + Written(c, log)[..n] + Written(c, log')) == Replay(c, file)
  {
    assert log == [log[0]] && log' == [log'[0]];
    TornIsUnterminated(c, file, log[0], n);
    GluedIsLost(c, file, log[0], n, log'[0]);
  }

  lemma TornThenLost(c: Codec, h: Host, op: Op, n: nat, next: Op)
    requires Tears(c, h, op, n, next) && !Terminated(Next(c, h, Torn(op, n)).file)
    ensures Survivor(c, h, op, n, next).store == h.store
  {
    LostText(c, h.file, Records(h.store, op), Records(Next(c, h, Torn(op, n)).store, next), n);
  }

  lemma WholeThenFound(c: Codec, h: Host, op: Op, n: nat, next: Op)
    requires Tears(c, h, op, n, next) && Terminated(Next(c, h, Torn(op, n)).file)
    ensures Survivor(c, h, op, n, next).store == After(Next(c, h, Torn(op, n)).store, next)
  {
    DoneStep(c, Next(c, h, Torn(op, n)), next);
  }

  /** What the operation after a tear wrote is found again exactly when the tear left whole lines;
      otherwise it is lost, and with it the torn operation, however much of that could be read. */
  lemma AppendAfterTearSurvivesIff(c: Codec, h: Host, op: Op, n: nat, next: Op)
    requires Tears(c, h, op, n, next)
    ensures var t, e := Next(c, h, Torn(op, n)), Survivor(c, h, op, n, next);
      e.store == if Terminated(t.file) then After(t.store, next) else h.store
  {
    if Terminated(Next(c, h, Torn(op, n)).file) {
      WholeThenFound(c, h, op, n, next);
    } else {
      TornThenLost(c, h, op, n, next);
    }
  }

  lemma GluedIsLost(c: Codec, file: string, r: Record, n: nat, r': Record)
    requires Sound(c) && Terminated(file) && 0 < n < |Written(c, [r])|
    ensures Replay(c, file + Written(c, [r])[..n] + Written(c, [r'])) == Replay(c, file)
  {
    AppendAfterTear(c, file, r, n, r');
    assert Written(c, [r]) == c.encode(r) + "\n" + Written(c, []);
    assert Written(c, [r']) == c.encode(r') + "\n" + Written(c, []);
    assert Written(c, [r]) == c.encode(r) + "\n" && Written(c, [r']) == c.encode(r') + "\n";
  }

  /** What a torn write leaves readable is all of it or none. */
  lemma TornStore(c: Codec, h: Host, op: Op, n: nat)
    requires Sound(c) && InStep(c, h) && |Records(h.store, op)| == 1 && Possible(c, h, Torn(op, n))
    ensures Next(c, h, Torn(op, n)).store == h.store || Next(c, h, Torn(op, n)).store == After(h.store, op)
  {
    var r := Records(h.store, op)[0];
    assert Records(h.store, op) == [r];
    RecordsAreTheOperation(h.store, op);
    TornIsUnterminated(c, h.file, r, n);
    TornFold(c, h.file, r, n);
  }

  lemma TornFold(c: Codec, file: string, r: Record, n: nat)
    requires Sound(c) && Terminated(file) && n <= |c.encode(r) + "\n"|
    ensures var before, after := FoldAll(Replay(c, file)), FoldAll(Replay(c, file + (c.encode(r) + "\n")[..n]));
      after == before || after == Apply(before, r)
  {
    ReplayTorn(c, file, r, n);
    FoldAppend(Replay(c, file), r);
    assert Replay(c, file) + [] == Replay(c, file);
  }

  /** A step's highest epoch after a tear is at least what it was before. */
  lemma TearKeepsHighest(c: Codec, h: Host, op: Op, n: nat, key: StepKey)
    requires Sound(c) && InStep(c, h) && |Records(h.store, op)| == 1 && Possible(c, h, Torn(op, n))
      && key in h.store.steps
    ensures var t := Next(c, h, Torn(op, n)).store;
      key in t.steps && t.steps[key].highestEpoch >= h.store.steps[key].highestEpoch
  {
    TornStore(c, h, op, n);
    EpochStep(h.store, op, key);
  }

  /** The epoch admitted right after a tear is handed out again, or an older one, exactly when the tear
      did not leave whole lines. */
  lemma EpochReissuedIff(c: Codec, h: Host, op: Op, n: nat, job: StepJobRef, fingerprint: string, worker: string,
                         now: nat, later: nat)
    requires Tears(c, h, op, n, Admit(job, fingerprint, worker, now))
    requires Decide(Survivor(c, h, op, n, Admit(job, fingerprint, worker, now)).store, job, fingerprint, later).Run?
    ensures var first := Decide(Next(c, h, Torn(op, n)).store, job, fingerprint, now);
      var second := Decide(Survivor(c, h, op, n, Admit(job, fingerprint, worker, now)).store, job, fingerprint, later);
      first.Run? && (second.epoch <= first.epoch <==> !Terminated(Next(c, h, Torn(op, n)).file))
  {
    var t, admit := Next(c, h, Torn(op, n)), Admit(job, fingerprint, worker, now);
    AppendAfterTearSurvivesIff(c, h, op, n, admit);
    if KeyOf(job) in h.store.steps {
      TearKeepsHighest(c, h, op, n, KeyOf(job));
    }
    TwoAdmissions(h.store, t.store, Survivor(c, h, op, n, admit).store, Terminated(t.file), job, fingerprint, worker,
      now, later);
  }

  /** Two admissions of one step, the second from what survives the first. */
  lemma TwoAdmissions(s: Store, t: Store, e: Store, whole: bool, job: StepJobRef, fingerprint: string, worker: string,
                      now: nat, later: nat)
    requires Decide(t, job, fingerprint, now).Run? && Decide(e, job, fingerprint, later).Run?
    requires e == if whole then After(t, Admit(job, fingerprint, worker, now)) else s
    requires KeyOf(job) in s.steps ==>
      KeyOf(job) in t.steps && t.steps[KeyOf(job)].highestEpoch >= s.steps[KeyOf(job)].highestEpoch
    ensures Decide(e, job, fingerprint, later).epoch <= Decide(t, job, fingerprint, now).epoch <==> !whole
  {
    AdmittedEpoch(t, job, fingerprint, worker, now);
    AdmittedEpoch(e, job, fingerprint, worker, later);
  }

  lemma AdmittedEpoch(s: Store, job: StepJobRef, fingerprint: string, worker: string, now: nat)
    requires Decide(s, job, fingerprint, now).Run?
    ensures KeyOf(job) in s.steps && Decide(s, job, fingerprint, now).epoch == s.steps[KeyOf(job)].highestEpoch + 1
    ensures var after := After(s, Admit(job, fingerprint, worker, now));
      KeyOf(job) in after.steps && after.steps[KeyOf(job)].highestEpoch == s.steps[KeyOf(job)].highestEpoch + 1
  {
  }

  /** A step claimed under `epoch`, whose work is what the delivery describes and is not yet due. */
  predicate ClaimedFor(s: Store, job: StepJobRef, fingerprint: string, epoch: Epoch, now: nat) {
    && job.schemaVersion == JOB_REF_SCHEMA_VERSION && job.runId !in s.cancelledRuns && KeyOf(job) in s.steps
    && s.steps[KeyOf(job)].fingerprint == fingerprint && s.steps[KeyOf(job)].highestEpoch == epoch
    && s.steps[KeyOf(job)].state == ClaimedBy(epoch)
    && !ReconstructDeadline(s.steps[KeyOf(job)].notAfter, now).Expired?
  }

  predicate IsLaunched(s: Store, key: StepKey, epoch: Epoch) {
    key in s.steps && s.steps[key].state == LaunchedBy(epoch)
  }

  /** A launch accepted right after a tear, whatever was being written, is forgotten, and the launched step
      told to run again under the next epoch, exactly when the tear did not leave whole lines. */
  lemma LaunchForgottenIff(c: Codec, h: Host, op: Op, n: nat, job: StepJobRef, fingerprint: string, epoch: Epoch,
                           now: nat)
    requires Tears(c, h, op, n, Launch(KeyOf(job), epoch))
    requires ClaimedFor(h.store, job, fingerprint, epoch, now)
    requires ClaimedFor(Next(c, h, Torn(op, n)).store, job, fingerprint, epoch, now)
    ensures var t := Next(c, h, Torn(op, n));
      && IsLaunched(After(t.store, Launch(KeyOf(job), epoch)), KeyOf(job), epoch)
      && Decide(Survivor(c, h, op, n, Launch(KeyOf(job), epoch)).store, job, fingerprint, now)
           == if Terminated(t.file) then Refused(AlreadyLaunched(epoch)) else Run(epoch + 1)
  {
    AppendAfterTearSurvivesIff(c, h, op, n, Launch(KeyOf(job), epoch));
  }

  const BKey: StepKey := StepKey("run", "other")
  const AdmitA: Op := Admit(AJob, "work", "worker", 0)

  /** One step is frozen, the freeze of another is torn after a single character, the first step is
      admitted, the process dies, and the step is admitted once more. */
  const TornRunEvents: seq<Event> := [
    Do(Freeze(AKey, "work", None)), Torn(Freeze(BKey, "work", None), 1), Do(AdmitA), Restart, Do(AdmitA)]

  predicate KnowsOnly(s: Store) {
    s == OneStep(Pending, 0) || s == After(OneStep(Pending, 0), Freeze(BKey, "work", None))
  }

  lemma FirstAdmission(s: Store)
    requires KnowsOnly(s)
    ensures AllFenced(s) && Issued(s, AdmitA, AKey) == Some(1) && Records(s, AdmitA) == [Claimed(AKey, 1, "worker")]
  {
    assert KeyOf(AJob) == AKey && AKey != BKey;
  }

  lemma FrozenHost(c: Codec)
    requires Sound(c)
    ensures var h := Next(c, Host("", Empty), TornRunEvents[0]); InStep(c, h) && h.store == OneStep(Pending, 0)
  {
    AppendFolds(c, "", Records(Empty, Freeze(AKey, "work", None)));
    CleanStep(c, Host("", Empty), TornRunEvents[0]);
  }

  lemma TornFreeze(c: Codec, h: Host)
    requires Sound(c) && InStep(c, h) && h.store == OneStep(Pending, 0)
    ensures Possible(c, h, TornRunEvents[1]) && KnowsOnly(Next(c, h, TornRunEvents[1]).store)
    ensures !Terminated(Next(c, h, TornRunEvents[1]).file)
    ensures Survivor(c, h, Freeze(BKey, "work", None), 1, AdmitA).store == h.store
  {
    var freeze := Freeze(BKey, "work", None);
    var r := Records(h.store, freeze)[0];
    assert Records(h.store, freeze) == [r] && ReadsBack(c, r) && c.encode(r) != "";
    TornIsUnterminated(c, h.file, r, 1);
    TornStore(c, h, freeze, 1);
    FirstAdmission(Next(c, h, TornRunEvents[1]).store);
    AppendAfterTearSurvivesIff(c, h, freeze, 1, AdmitA);
  }

  /** Playing that run. */
  ghost function TornRunHost(c: Codec, i: nat): Host
    requires i <= 5
  {
    if i == 0 then Host("", Empty)
    else
      var h := TornRunHost(c, i - 1);
      if Possible(c, h, TornRunEvents[i - 1]) then Next(c, h, TornRunEvents[i - 1]) else h
  }

  lemma TornRunStores(c: Codec)
    requires Sound(c)
    ensures Possible(c, TornRunHost(c, 1), TornRunEvents[1]) && !Terminated(TornRunHost(c, 2).file)
    ensures KnowsOnly(TornRunHost(c, 2).store) && TornRunHost(c, 4).store == OneStep(Pending, 0)
  {
    var h1 := Next(c, Host("", Empty), TornRunEvents[0]);
    FrozenHost(c);
    assert TornRunHost(c, 0) == Host("", Empty) && TornRunHost(c, 1) == h1;
    TornFreeze(c, h1);
    assert TornRunHost(c, 2) == Next(c, h1, TornRunEvents[1]);
    assert TornRunHost(c, 3) == Next(c, TornRunHost(c, 2), Do(AdmitA));
    assert TornRunHost(c, 4) == Next(c, TornRunHost(c, 3), Restart);
  }

  ghost function TornRunHosts(c: Codec): (hosts: seq<Host>)
    ensures |hosts| == 6 && forall i: nat | i < 6 :: hosts[i] == TornRunHost(c, i)
  {
    seq(6, i requires 0 <= i < 6 => TornRunHost(c, i))
  }

  /** Whatever sound encoding is used, that run hands out epoch 1 twice. */
  lemma EpochHandedOutTwice(c: Codec)
    requires Sound(c)
    ensures HostRun(c, TornRunHosts(c), TornRunEvents) && !Terminated(TornRunHosts(c)[2].file)
    ensures Issued(TornRunHosts(c)[2].store, AdmitA, AKey) == Some(1) == Issued(TornRunHosts(c)[4].store, AdmitA, AKey)
  {
    TornRunStores(c);
    FirstAdmission(TornRunHost(c, 2).store);
    FirstAdmission(TornRunHost(c, 4).store);
    forall i: nat | i < |TornRunEvents| ensures HostStep(c, TornRunHosts(c), TornRunEvents, i) {
    }
  }
}
