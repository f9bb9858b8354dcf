/** The in-memory run store that turns at-least-once deliveries into at most one launch. Each section
    held under the store's lock is one operation; sending a result to its waiters happens after the
    lock is released, so it is an operation of its own. */
module LocalRun {
  import opened Collections

  /** A host reference, as its rank in the references' total order. */
  type Reference = int

  const MAX_EPOCH: nat := 0xFFFF_FFFF_FFFF_FFFF

  /** What one identity permanently names, and the controls that belong to one registration. */
  datatype StepCall = StepCall(work: string, controls: string)

  datatype StepClaim = StepClaim(reference: Reference, epoch: nat)

  datatype RecordState =
    | Pending
    | Claimed(epoch: nat)
    | Launched(epoch: nat)
    | Terminal(epoch: nat)
    | Uncertain(epoch: nat)

  datatype StepRecord = StepRecord(call: Option<StepCall>, frozen: string, state: RecordState,
                                   providerCallRecorded: bool)

  datatype StepError = Reported(error: string) | WorkerLost(reference: Reference)

  type TerminalResult = Result<string, StepError>

  /** What the waiters of one step can read, and the results taken from under the lock for them and
      not yet sent. */
  datatype Channel = Channel(value: Option<TerminalResult>, sending: seq<TerminalResult>)

  datatype Stats = Stats(registered: nat, deliveries: nat, claims: nat, launches: nat, duplicateSkips: nat,
                         terminals: nat, uncertains: nat, providerCalls: map<Reference, nat>)

  datatype Host = Host(records: map<Reference, StepRecord>, stats: Stats, nextEpoch: nat,
                       channels: map<Reference, Channel>)

  datatype Op =
    | Register(reference: Reference, call: StepCall)
    | Claim(reference: Reference)
    | Launch(claim: StepClaim)
    | NoteProviderCall(claim: StepClaim)
    | Complete(claim: StepClaim, result: TerminalResult)
    | ReconcileWorkerLoss
    | Publish(reference: Reference, k: nat)

  datatype Refusal = Missing | Collision | EpochOverflow | WrongState | CallGone | AlreadyRecorded | NotRecorded

  datatype Reply =
    | Refused(why: Refusal)
    | Registered(enqueue: bool)
    | Granted(claim: StepClaim)
    | Skipped
    | Owned(call: StepCall)
    | Done

  const NoStats: Stats := Stats(0, 0, 0, 0, 0, 0, 0, map[])
  const Empty: Host := Host(map[], NoStats, 0, map[])

  // ---------------------------------------------------------------------------------------------
  // The operations
  // ---------------------------------------------------------------------------------------------

  /** Refuse a claim that does not hold the record in the expected state. */
  function Check(h: Host, claim: StepClaim, expected: RecordState): Option<Refusal> {
    if claim.reference !in h.records then Some(Missing)
    else if h.records[claim.reference].state != expected then Some(WrongState)
    else None
  }

  /** Only a result that is on its way can be sent; every other operation may be tried at any time,
      with any claim, held or forged. */
  predicate Possible(h: Host, op: Op) {
    && h.channels.Keys == h.records.Keys
    && (op.Publish? ==> op.reference in h.channels && op.k < |h.channels[op.reference].sending|)
  }

  function Answer(h: Host, op: Op): Reply {
    match op
    case Register(reference, call) =>
      if reference !in h.records then Registered(true)
      else if h.records[reference].frozen != call.work then Refused(Collision)
      else Registered(h.records[reference].state == Pending)
    case Claim(reference) =>
      if reference !in h.records then Refused(Missing)
      else if h.records[reference].state != Pending then Skipped
      else if h.nextEpoch == MAX_EPOCH then Refused(EpochOverflow)
      else Granted(StepClaim(reference, h.nextEpoch + 1))
    case Launch(claim) =>
      var check := Check(h, claim, Claimed(claim.epoch));
      if check.Some? then Refused(check.value)
      else
        var call := h.records[claim.reference].call;
        if call.None? then Refused(CallGone) else Owned(call.value)
    case NoteProviderCall(claim) =>
      var check := Check(h, claim, Launched(claim.epoch));
      if check.Some? then Refused(check.value)
      else if h.records[claim.reference].providerCallRecorded then Refused(AlreadyRecorded)
      else Done
    case Complete(claim, _) =>
      var check := Check(h, claim, Launched(claim.epoch));
      if check.Some? then Refused(check.value)
      else if !h.records[claim.reference].providerCallRecorded then Refused(NotRecorded)
      else Done
    case ReconcileWorkerLoss => Done
    case Publish(_, _) => Done
  }

  function Update(h: Host, reference: Reference, record: StepRecord, stats: Stats): Host {
    h.(records := h.records[reference := record], stats := stats)
  }

  function Increment(counts: map<Reference, nat>, r: Reference): map<Reference, nat> {
    counts[r := (if r in counts then counts[r] else 0) + 1]
  }

  /** A lost claim still owns its call; a lost launch may have had effects. */
  function Reconciled(state: RecordState): RecordState {
    match state
    case Claimed(_) => Pending
    case Launched(epoch) => Uncertain(epoch)
    case _ => state
  }

  function Recovered(record: StepRecord): StepRecord {
    record.(state := Reconciled(record.state))
  }

  /** The waiters of a lost launch are about to be told so. */
  function ToldLost(h: Host, r: Reference): Channel
    requires r in h.channels
  {
    if r in h.records && h.records[r].state.Launched? then Taken(h.channels[r], Lost(r)) else h.channels[r]
  }

  function Lost(reference: Reference): TerminalResult {
    Err(WorkerLost(reference))
  }

  function Taken(channel: Channel, result: TerminalResult): Channel {
    channel.(sending := channel.sending + [result])
  }

  /** Replace whatever the waiters could read. */
  function Sent(channel: Channel, k: nat): Channel
    requires k < |channel.sending|
  {
    Channel(Some(channel.sending[k]), channel.sending[..k] + channel.sending[k + 1..])
  }

  /** The families of states the store counts or reports. */
  datatype Family = Retryable | InFlight | Answered | Doubtful | Past

  predicate Of(family: Family, s: RecordState) {
    match family
    case Retryable => s.Claimed?
    case InFlight => s.Launched?
    case Answered => s.Terminal?
    case Doubtful => s.Uncertain?
    case Past => IsPast(s)
  }

  function In(h: Host, family: Family): set<Reference> {
    set r | r in h.records && Of(family, h.records[r].state)
  }

  /** Past the launch boundary: the call has left the store. */
  predicate IsPast(s: RecordState) {
    s.Launched? || s.Terminal? || s.Uncertain?
  }

  function AfterReconcile(h: Host): Host {
    h.(records := map r | r in h.records :: Recovered(h.records[r]),
       stats := h.stats.(uncertains := h.stats.uncertains + |In(h, InFlight)|),
       channels := map r | r in h.channels :: ToldLost(h, r))
  }

  function AfterClaim(h: Host, reference: Reference): Host
    requires reference in h.records
  {
    var counted := h.stats.(deliveries := h.stats.deliveries + 1);
    var record := h.records[reference];
    if record.state != Pending then h.(stats := counted.(duplicateSkips := counted.duplicateSkips + 1))
    else if h.nextEpoch == MAX_EPOCH then h.(stats := counted)
    else
      Update(h, reference, record.(state := Claimed(h.nextEpoch + 1)), counted.(claims := counted.claims + 1))
        .(nextEpoch := h.nextEpoch + 1)
  }

  function After(h: Host, op: Op): Host
    requires Possible(h, op)
  {
    var answer := Answer(h, op);
    if answer.Refused? && answer.why != EpochOverflow then h
    else
      match op
      case Register(reference, call) =>
        if reference in h.records then h
        else
          Update(h, reference, StepRecord(Some(call), call.work, Pending, false),
                 h.stats.(registered := h.stats.registered + 1))
            .(channels := h.channels[reference := Channel(None, [])])
      case Claim(reference) => AfterClaim(h, reference)
      case Launch(claim) =>
        var record := h.records[claim.reference].(call := None, state := Launched(claim.epoch));
        Update(h, claim.reference, record, h.stats.(launches := h.stats.launches + 1))
      case NoteProviderCall(claim) =>
        Update(h, claim.reference, h.records[claim.reference].(providerCallRecorded := true),
               h.stats.(providerCalls := Increment(h.stats.providerCalls, claim.reference)))
      case Complete(claim, result) =>
        Update(h, claim.reference, h.records[claim.reference].(state := Terminal(claim.epoch)),
               h.stats.(terminals := h.stats.terminals + 1))
          .(channels := h.channels[claim.reference := Taken(h.channels[claim.reference], result)])
      case ReconcileWorkerLoss => AfterReconcile(h)
      case Publish(reference, k) => h.(channels := h.channels[reference := Sent(h.channels[reference], k)])
  }

  // ---------------------------------------------------------------------------------------------
  // What every operation keeps
  // ---------------------------------------------------------------------------------------------

  predicate Settled(s: RecordState) {
    s.Terminal? || s.Uncertain?
  }

  /** The owned call is held exactly before launch; only a launched step may call a provider, and
      only one that did may complete. */
  predicate RecordSound(record: StepRecord, nextEpoch: nat) {
    && (record.call.Some? <==> !IsPast(record.state))
    && (record.call.Some? ==> record.call.value.work == record.frozen)
    && (record.providerCallRecorded ==> IsPast(record.state))
    && (record.state.Terminal? ==> record.providerCallRecorded)
    && (!record.state.Pending? ==> 1 <= record.state.epoch <= nextEpoch)
  }

  ghost predicate SoundAt(h: Host, r: Reference) {
    r in h.records ==> RecordSound(h.records[r], h.nextEpoch)
  }

  ghost predicate RecordsSound(h: Host) {
    forall r :: SoundAt(h, r)
  }

  /** A step held, or once held, under some epoch. */
  predicate Held(h: Host, r: Reference) {
    r in h.records && !h.records[r].state.Pending?
  }

  ghost predicate ApartAt(h: Host, r: Reference, q: Reference) {
    r != q && Held(h, r) && Held(h, q) ==> h.records[r].state.epoch != h.records[q].state.epoch
  }

  /** No two steps are ever held under one epoch. */
  ghost predicate EpochsApart(h: Host) {
    forall r, q :: ApartAt(h, r, q)
  }

  /** A settled step has exactly one result, sent or on its way; an unsettled one has none; and a
      lost launch is reported as lost. */
  ghost predicate Accounted(r: Reference, state: RecordState, channel: Channel) {
    && |channel.sending| + (if channel.value.Some? then 1 else 0) == (if Settled(state) then 1 else 0)
    && (state.Uncertain? ==> channel.sending == [Lost(r)] || channel.value == Some(Lost(r)))
  }

  ghost predicate AccountedAt(h: Host, r: Reference) {
    r in h.records && r in h.channels ==> Accounted(r, h.records[r].state, h.channels[r])
  }

  ghost predicate PublishedOnce(h: Host) {
    h.channels.Keys == h.records.Keys && forall r :: AccountedAt(h, r)
  }

  /** The counters are the sizes of what they count; claims and epochs advance together. */
  ghost predicate Counted(h: Host) {
    && h.stats.registered == |h.records|
    && h.stats.claims == h.nextEpoch <= MAX_EPOCH
    && h.stats.launches == |In(h, Past)|
    && h.stats.terminals == |In(h, Answered)|
    && h.stats.uncertains == |In(h, Doubtful)|
  }

  ghost predicate CallsCounted(h: Host) {
    && h.stats.providerCalls.Keys == (set r | r in h.records && h.records[r].providerCallRecorded)
    && forall r :: CalledOnce(h.stats.providerCalls, r)
  }

  ghost predicate CalledOnce(calls: map<Reference, nat>, r: Reference) {
    r in calls ==> calls[r] == 1
  }

  ghost predicate Inv(h: Host) {
    RecordsSound(h) && EpochsApart(h) && PublishedOnce(h) && Counted(h) && CallsCounted(h)
  }

  lemma KeepsRecordsSound(h: Host, op: Op)
    requires Possible(h, op) && RecordsSound(h)
    ensures RecordsSound(After(h, op))
  {
    forall r ensures SoundAt(After(h, op), r) {
      assert SoundAt(h, r);
    }
  }

  lemma KeepsEpochsApart(h: Host, op: Op)
    requires Possible(h, op) && RecordsSound(h) && EpochsApart(h)
    ensures EpochsApart(After(h, op))
  {
    forall r, q ensures ApartAt(After(h, op), r, q) {
      assert SoundAt(h, r) && SoundAt(h, q) && ApartAt(h, r, q);
    }
  }

  lemma KeepsCallsCounted(h: Host, op: Op)
    requires Possible(h, op) && CallsCounted(h)
    ensures CallsCounted(After(h, op))
  {
    var h' := After(h, op);
    forall r ensures CalledOnce(h'.stats.providerCalls, r) {
      assert CalledOnce(h.stats.providerCalls, r);
    }
    forall r ensures r in h'.stats.providerCalls.Keys <==> r in h'.records && h'.records[r].providerCallRecorded {
      assert r in h.stats.providerCalls.Keys <==> r in h.records && h.records[r].providerCallRecorded;
    }
  }

  /** Moving one record from one state to another moves it between the sets that are counted. */
  lemma CountMoves(h: Host, h': Host, reference: Reference, family: Family)
    requires reference in h'.records && h'.records == h.records[reference := h'.records[reference]]
    ensures |In(h', family)| == |In(h, family)|
      + One(Of(family, h'.records[reference].state))
      - One(reference in h.records && Of(family, h.records[reference].state))
  {
    CountExcept(In(h, family), In(h', family), reference);
  }

  function One(b: bool): int { if b then 1 else 0 }

  lemma AllCountsMove(h: Host, h': Host, r: Reference)
    requires r in h'.records && h'.records == h.records[r := h'.records[r]]
    ensures |h'.records| == |h.records| + One(r !in h.records)
    ensures |In(h', Past)|
      == |In(h, Past)| + One(IsPast(h'.records[r].state)) - One(r in h.records && IsPast(h.records[r].state))
    ensures |In(h', Answered)|
      == |In(h, Answered)| + One(h'.records[r].state.Terminal?) - One(r in h.records && h.records[r].state.Terminal?)
    ensures |In(h', Doubtful)|
      == |In(h, Doubtful)| + One(h'.records[r].state.Uncertain?) - One(r in h.records && h.records[r].state.Uncertain?)
  {
    CountMoves(h, h', r, Past);
    CountMoves(h, h', r, Answered);
    CountMoves(h, h', r, Doubtful);
    CountExcept(h.records.Keys, h'.records.Keys, r);
  }

  lemma KeepsCounted(h: Host, op: Op)
    requires Possible(h, op) && Counted(h)
    ensures Counted(After(h, op))
  {
    var h' := After(h, op);
    if op.ReconcileWorkerLoss? {
      ReconcileCounts(h);
    } else if h'.records == h.records {
      assert In(h', Past) == In(h, Past) && In(h', Answered) == In(h, Answered) && In(h', Doubtful) == In(h, Doubtful);
    } else {
      AllCountsMove(h, h', if op.Register? || op.Claim? then op.reference else op.claim.reference);
    }
  }

  lemma UncertainAfterReconcile(h: Host)
    ensures |In(AfterReconcile(h), Doubtful)| == |In(h, Doubtful)| + |In(h, InFlight)|
  {
    var h' := AfterReconcile(h);
    forall r ensures r in In(h', Doubtful) <==> r in In(h, Doubtful) + In(h, InFlight) {
      assert r in h.records ==> h'.records[r].state == Reconciled(h.records[r].state);
    }
    forall r | r in In(h, Doubtful) ensures r !in In(h, InFlight) {
      assert Of(Doubtful, h.records[r].state);
    }
    CountApart(In(h, Doubtful), In(h, InFlight), In(h', Doubtful));
  }

  lemma ReconcileCounts(h: Host)
    requires Counted(h)
    ensures Counted(AfterReconcile(h))
  {
    var h' := AfterReconcile(h);
    assert h'.records.Keys == h.records.Keys;
    forall r ensures (r in In(h', Past) <==> r in In(h, Past)) && (r in In(h', Answered) <==> r in In(h, Answered)) {
      assert r in h.records ==> h'.records[r].state == Reconciled(h.records[r].state);
    }
    assert In(h', Past) == In(h, Past) && In(h', Answered) == In(h, Answered);
    UncertainAfterReconcile(h);
  }

  lemma StaysAccounted(h: Host, op: Op, r: Reference)
    requires Possible(h, op) && AccountedAt(h, r)
    ensures AccountedAt(After(h, op), r)
  {
    if op.Publish? && r == op.reference && r in h.records {
      assert |h.channels[r].sending| == 1 && h.channels[r].value.None?;
    }
  }

  lemma KeepsPublishedOnce(h: Host, op: Op)
    requires Possible(h, op) && PublishedOnce(h)
    ensures PublishedOnce(After(h, op))
  {
    forall r ensures AccountedAt(After(h, op), r) {
      assert AccountedAt(h, r);
      StaysAccounted(h, op, r);
    }
  }

  lemma KeepsInv(h: Host, op: Op)
    requires Inv(h) && Possible(h, op)
    ensures Inv(After(h, op))
  {
    KeepsRecordsSound(h, op);
    KeepsEpochsApart(h, op);
    KeepsPublishedOnce(h, op);
    KeepsCounted(h, op);
    KeepsCallsCounted(h, op);
  }

  // ---------------------------------------------------------------------------------------------
  // Every interleaving
  // ---------------------------------------------------------------------------------------------

  ghost predicate StepAt(states: seq<Host>, ops: seq<Op>, i: nat)
    requires i < |ops| && |states| == |ops| + 1
  {
    Possible(states[i], ops[i]) && states[i + 1] == After(states[i], ops[i])
  }

  ghost predicate Run(states: seq<Host>, ops: seq<Op>) {
    && |states| == |ops| + 1 && states[0] == Empty
    && forall i: nat | i < |ops| :: StepAt(states, ops, i)
  }

  /** The reply the i-th operation of a run got. */
  function ReplyAt(states: seq<Host>, ops: seq<Op>, i: nat): Reply
    requires i < |ops| && |states| == |ops| + 1
  {
    Answer(states[i], ops[i])
  }

  lemma {:induction false} RunKeepsInv(states: seq<Host>, ops: seq<Op>, i: nat)
    requires Run(states, ops) && i < |states|
    ensures Inv(states[i])
  {
    if i == 0 {
      assert In(Empty, Past) == {} && In(Empty, Answered) == {} && In(Empty, Doubtful) == {};
    } else {
      RunKeepsInv(states, ops, i - 1);
      assert StepAt(states, ops, i - 1);
      KeepsInv(states[i - 1], ops[i - 1]);
    }
  }

  /** What time never undoes for one step: what it names, that it launched, called its provider or
      settled, what its waiters have been told, and what they will be told. */
  ghost predicate Onward(h: Host, h': Host, r: Reference) {
    r in h.records && r in h.channels ==>
      && r in h'.records && r in h'.channels
      && h'.records[r].frozen == h.records[r].frozen
      && (IsPast(h.records[r].state) ==> IsPast(h'.records[r].state))
      && (Settled(h.records[r].state) ==> h'.records[r].state == h.records[r].state)
      && (h.records[r].providerCallRecorded ==> h'.records[r].providerCallRecorded)
      && (h.channels[r].value.Some? ==> h'.channels[r].value == h.channels[r].value)
      && forall result :: Bound(h, r, result) ==> Bound(h', r, result)
  }

  /** The only thing the waiters of a step have been, or will be, told. */
  ghost predicate Bound(h: Host, r: Reference, result: TerminalResult) {
    r in h.channels && (h.channels[r] == Channel(None, [result]) || h.channels[r] == Channel(Some(result), []))
  }

  lemma StepGoesOnward(h: Host, op: Op, r: Reference)
    requires Inv(h) && Possible(h, op)
    ensures Onward(h, After(h, op), r)
  {
    if r in h.records {
      assert AccountedAt(h, r) && SoundAt(h, r);
    }
  }

  lemma EpochsGoUp(h: Host, op: Op)
    requires Possible(h, op)
    ensures h.nextEpoch <= After(h, op).nextEpoch
  {
  }

  lemma {:induction false} RunGoesOnward(states: seq<Host>, ops: seq<Op>, i: nat, j: nat, r: Reference)
    requires Run(states, ops) && i <= j < |states|
    ensures Onward(states[i], states[j], r)
    ensures states[i].nextEpoch <= states[j].nextEpoch
    decreases j - i
  {
    if i < j {
      RunGoesOnward(states, ops, i, j - 1, r);
      RunKeepsInv(states, ops, j - 1);
      assert StepAt(states, ops, j - 1);
      StepGoesOnward(states[j - 1], ops[j - 1], r);
      EpochsGoUp(states[j - 1], ops[j - 1]);
    }
  }

  /** One identity is launched, calls its provider and settles at most once each, however often it is
      delivered, claimed or replayed. */
  lemma AtMostOnce(states: seq<Host>, ops: seq<Op>, i: nat, j: nat)
    requires Run(states, ops) && i < j < |ops|
    ensures ops[i].Launch? && ops[j].Launch? && ReplyAt(states, ops, i).Owned? && ReplyAt(states, ops, j).Owned? ==>
      ops[i].claim.reference != ops[j].claim.reference
    ensures ops[i].NoteProviderCall? && ops[j].NoteProviderCall?
            && ReplyAt(states, ops, i).Done? && ReplyAt(states, ops, j).Done? ==>
      ops[i].claim.reference != ops[j].claim.reference
    ensures ops[i].Complete? && ops[j].Complete? && ReplyAt(states, ops, i).Done? && ReplyAt(states, ops, j).Done? ==>
      ops[i].claim.reference != ops[j].claim.reference
  {
    if ops[i].Launch? || ops[i].NoteProviderCall? || ops[i].Complete? {
      assert StepAt(states, ops, i);
      RunGoesOnward(states, ops, i + 1, j, ops[i].claim.reference);
    }
  }

  /** Every claim is granted under an epoch above all earlier ones, whichever steps they are for. */
  lemma EpochsNeverReissued(states: seq<Host>, ops: seq<Op>, i: nat, j: nat)
    requires Run(states, ops) && i < j < |ops|
    requires ReplyAt(states, ops, i).Granted? && ReplyAt(states, ops, j).Granted?
    ensures ReplyAt(states, ops, i).claim.epoch < ReplyAt(states, ops, j).claim.epoch <= MAX_EPOCH
  {
    assert StepAt(states, ops, i);
    RunGoesOnward(states, ops, i + 1, j, 0);
    RunKeepsInv(states, ops, j);
  }

  /** Waiters are told once: no step has two results sent, and nothing sent is ever replaced. */
  lemma PublishedAtMostOnce(states: seq<Host>, ops: seq<Op>, i: nat, j: nat)
    requires Run(states, ops) && i < j < |ops| && ops[i].Publish? && ops[j].Publish?
    ensures ops[i].reference != ops[j].reference
  {
    var r := ops[i].reference;
    assert StepAt(states, ops, i) && StepAt(states, ops, j);
    RunGoesOnward(states, ops, i + 1, j, r);
    RunKeepsInv(states, ops, j);
    assert AccountedAt(states[j], r);
  }

  /** The result of the one accepted completion is the only one waiters can ever be told. */
  lemma AcceptedResultIsTheAnswer(states: seq<Host>, ops: seq<Op>, i: nat, j: nat)
    requires Run(states, ops) && i < j < |states|
    requires ops[i].Complete? && ReplyAt(states, ops, i).Done?
    ensures Bound(states[j], ops[i].claim.reference, ops[i].result)
  {
    var r := ops[i].claim.reference;
    assert StepAt(states, ops, i);
    RunKeepsInv(states, ops, i);
    assert AccountedAt(states[i], r);
    assert Bound(states[i + 1], r, ops[i].result);
    RunGoesOnward(states, ops, i + 1, j, r);
  }

  ghost predicate Completes(h: Host, op: Op, r: Reference, result: TerminalResult) {
    op.Complete? && op.claim.reference == r && op.result == result && Answer(h, op).Done?
  }

  lemma NewAnswers(h: Host, op: Op, r: Reference, result: TerminalResult)
    requires Possible(h, op) && PublishedOnce(h) && Bound(After(h, op), r, result)
    ensures Bound(h, r, result) || result == Lost(r) || Completes(h, op, r, result)
  {
    if r in h.records {
      var sending := h.channels[r].sending;
      assert AccountedAt(h, r);
      assert sending == [] || sending == [sending[0]];
      assert sending == [] ==> forall x: TerminalResult :: (sending + [x])[0] == x;
      var next := After(h, op).channels[r];
      assert next.sending != [] ==> next.sending[0] == result;
    }
  }

  /** Conversely, whatever waiters are told is an accepted completion of their step or its loss. */
  lemma {:induction false} EveryAnswerHasASource(states: seq<Host>, ops: seq<Op>, j: nat, r: Reference,
                                                 result: TerminalResult)
    requires Run(states, ops) && j < |states| && Bound(states[j], r, result)
    ensures result == Lost(r) || exists i: nat :: i < j && Completes(states[i], ops[i], r, result)
  {
    if j > 0 {
      assert StepAt(states, ops, j - 1);
      RunKeepsInv(states, ops, j - 1);
      NewAnswers(states[j - 1], ops[j - 1], r, result);
      if Bound(states[j - 1], r, result) {
        EveryAnswerHasASource(states, ops, j - 1, r, result);
      }
    }
  }

  /** When no send is outstanding, the waiters of exactly the settled steps have an answer. */
  lemma DrainedHostsHaveAnswered(h: Host, r: Reference)
    requires PublishedOnce(h) && r in h.records && h.channels[r].sending == []
    ensures h.channels[r].value.Some? <==> Settled(h.records[r].state)
  {
    assert AccountedAt(h, r);
  }

  /** An identity names what it was first registered with: any later registration of something else
      is refused, of the same thing is not, and the call a launch hands over is that thing. */
  lemma IdentityIsPermanent(states: seq<Host>, ops: seq<Op>, i: nat, j: nat)
    requires Run(states, ops) && i < j < |ops|
    requires ops[i].Register? && ReplyAt(states, ops, i).Registered?
    ensures ops[j].Register? && ops[j].reference == ops[i].reference ==>
      (ReplyAt(states, ops, j).Registered? <==> ops[j].call.work == ops[i].call.work)
    ensures ops[j].Launch? && ops[j].claim.reference == ops[i].reference && ReplyAt(states, ops, j).Owned? ==>
      ReplyAt(states, ops, j).call.work == ops[i].call.work
  {
    var r := ops[i].reference;
    assert StepAt(states, ops, i);
    RunKeepsInv(states, ops, i);
    RunKeepsInv(states, ops, j);
    assert r in states[i + 1].records && states[i + 1].records[r].frozen == ops[i].call.work;
    RunGoesOnward(states, ops, i + 1, j, r);
    assert SoundAt(states[j], r);
  }

  /** A held claim never finds its call gone. */
  lemma ClaimedCallIsThere(h: Host, claim: StepClaim)
    requires Inv(h)
    ensures Answer(h, Launch(claim)) != Refused(CallGone)
  {
    if claim.reference in h.records {
      assert SoundAt(h, claim.reference);
    }
  }

  /** The epochs currently held by live workers all lie above `floor`. */
  ghost predicate LiveAbove(h: Host, floor: nat) {
    floor <= h.nextEpoch
    && forall r | r in h.records && (h.records[r].state.Claimed? || h.records[r].state.Launched?) ::
      h.records[r].state.epoch > floor
  }

  lemma StaysAbove(h: Host, op: Op, floor: nat)
    requires Possible(h, op) && LiveAbove(h, floor)
    ensures LiveAbove(After(h, op), floor)
  {
    var h' := After(h, op);
    forall r | r in h'.records && (h'.records[r].state.Claimed? || h'.records[r].state.Launched?)
      ensures h'.records[r].state.epoch > floor {}
  }

  lemma {:induction false} RunStaysAbove(states: seq<Host>, ops: seq<Op>, i: nat, j: nat, floor: nat)
    requires Run(states, ops) && i <= j < |states| && LiveAbove(states[i], floor)
    ensures LiveAbove(states[j], floor)
    decreases j - i
  {
    if i < j {
      RunStaysAbove(states, ops, i, j - 1, floor);
      assert StepAt(states, ops, j - 1);
      StaysAbove(states[j - 1], ops[j - 1], floor);
    }
  }

  /** Reconciliation fences: a claim granted before it is refused by every later operation, and
      refused operations change nothing. */
  lemma LostWorkersAreFenced(states: seq<Host>, ops: seq<Op>, i: nat, lost: nat, j: nat)
    requires Run(states, ops) && i < lost < j < |ops|
    requires ReplyAt(states, ops, i).Granted? && ops[lost].ReconcileWorkerLoss?
    requires ops[j].Launch? || ops[j].NoteProviderCall? || ops[j].Complete?
    requires ops[j].claim == ReplyAt(states, ops, i).claim
    ensures ReplyAt(states, ops, j).Refused? && states[j + 1] == states[j]
  {
    assert StepAt(states, ops, i) && StepAt(states, ops, lost) && StepAt(states, ops, j);
    var floor := ops[j].claim.epoch;
    RunGoesOnward(states, ops, i + 1, lost, 0);
    assert LiveAbove(states[lost + 1], floor);
    RunStaysAbove(states, ops, lost + 1, j, floor);
  }

  /** How many deliveries died of an exhausted epoch counter. */
  ghost function Overflows(states: seq<Host>, ops: seq<Op>, n: nat): nat
    requires Run(states, ops) && n <= |ops|
  {
    if n == 0 then 0
    else Overflows(states, ops, n - 1) + if ReplyAt(states, ops, n - 1) == Refused(EpochOverflow) then 1 else 0
  }

  /** Deliveries are claims plus duplicate skips plus overflows, which need all 2^64 - 1 epochs spent. */
  lemma {:induction false} DeliveriesAddUp(states: seq<Host>, ops: seq<Op>, n: nat)
    requires Run(states, ops) && n <= |ops|
    ensures var stats := states[n].stats;
      stats.deliveries == stats.claims + stats.duplicateSkips + Overflows(states, ops, n)
    ensures states[n].nextEpoch < MAX_EPOCH ==> Overflows(states, ops, n) == 0
  {
    if n > 0 {
      DeliveriesAddUp(states, ops, n - 1);
      assert StepAt(states, ops, n - 1);
      RunGoesOnward(states, ops, n - 1, n, 0);
    }
  }
}
