/** The byte-bounded event channel: any number of emitters reserve bytes on one shared counter with a
    weak compare-exchange, send, and one receiver takes events and releases their bytes. Every atomic
    access and every channel operation is one step; local computation rides along with it. */
module EventChannel {
  import opened Collections

  type Text = seq<Byte>

  datatype AgentEvent =
    | Started
    | OutputDelta(text: Text)
    | ThinkingDelta(text: Text)
    | ToolStarted(name: Text)
    | TurnStarted(number: nat)
    | Status(message: Text)
    | Usage(tokens: nat)
    | Warning(message: Text)

  function PayloadBytes(event: AgentEvent): nat {
    match event
    case OutputDelta(text) => |text|
    case ThinkingDelta(text) => |text|
    case ToolStarted(name) => |name|
    case Status(message) => |message|
    case Warning(message) => |message|
    case _ => 0
  }

  /** The counter is a machine word: addition and subtraction wrap around. */
  const WORD: nat := 0x1_0000_0000_0000_0000

  datatype Limits = Limits(maxEventBytes: nat, maxQueuedBytes: nat, capacity: nat)

  /** What the source needs for `current + bytes` not to overflow. */
  predicate Summable(l: Limits) {
    l.maxEventBytes + l.maxQueuedBytes < WORD
  }

  datatype SendError = Full | Closed

  /** Where one emitter stands inside `try_emit`. */
  datatype Emitter =
    | Idle
    | Loaded(event: AgentEvent, current: nat)
    | Reserved(event: AgentEvent)
    | Failed(event: AgentEvent, error: SendError)

  /** `taken` left the queue but its bytes are not released yet; `accepted` and `received` are the
      histories of what senders and the consumer were given; `abandoned` is what a dropped receiver
      left in the queue. */
  datatype Channel = Channel(queued: nat, emitters: seq<Emitter>, queue: seq<AgentEvent>, taken: Option<AgentEvent>,
                             open: bool, accepted: seq<AgentEvent>, received: seq<AgentEvent>,
                             abandoned: seq<AgentEvent>)

  datatype Step =
    | Load(t: nat, event: AgentEvent)
    | Exchange(t: nat, spurious: bool)
    | Send(t: nat)
    | GiveBack(t: nat)
    | Take
    | Release
    | Drop

  datatype Reply = Quiet | Emitted | Rejected(error: SendError) | Delivered(event: AgentEvent)

  predicate Enabled(c: Channel, step: Step) {
    match step
    case Load(t, _) => t < |c.emitters| && c.emitters[t].Idle?
    case Exchange(t, _) => t < |c.emitters| && c.emitters[t].Loaded?
    case Send(t) => t < |c.emitters| && c.emitters[t].Reserved?
    case GiveBack(t) => t < |c.emitters| && c.emitters[t].Failed?
    case Take => c.open && c.taken.None? && c.queue != []
    case Release => c.taken.Some?
    case Drop => c.open && c.taken.None?
  }

  /** The budget test on the value last loaded. */
  predicate Exceeds(l: Limits, current: nat, event: AgentEvent) {
    (current + PayloadBytes(event)) % WORD > l.maxQueuedBytes
  }

  function Answer(l: Limits, c: Channel, step: Step): Reply
    requires Enabled(c, step)
  {
    match step
    case Load(_, event) => if PayloadBytes(event) > l.maxEventBytes then Rejected(Full) else Quiet
    case Exchange(t, _) => if Exceeds(l, c.emitters[t].current, c.emitters[t].event) then Rejected(Full) else Quiet
    case Send(_) => if c.open && |c.queue| < l.capacity then Emitted else Quiet
    case GiveBack(t) => Rejected(c.emitters[t].error)
    case Take => Quiet
    case Release => Delivered(c.taken.value)
    case Drop => Quiet
  }

  function At(c: Channel, t: nat, e: Emitter): Channel
    requires t < |c.emitters|
  {
    c.(emitters := c.emitters[t := e])
  }

  function After(l: Limits, c: Channel, step: Step): Channel
    requires Enabled(c, step)
  {
    match step
    case Load(t, event) =>
      if PayloadBytes(event) > l.maxEventBytes then c else At(c, t, Loaded(event, c.queued))
    case Exchange(t, spurious) =>
      var Loaded(event, current) := c.emitters[t];
      if Exceeds(l, current, event) then At(c, t, Idle)
      else if spurious || c.queued != current then At(c, t, Loaded(event, c.queued))
      else At(c, t, Reserved(event)).(queued := (current + PayloadBytes(event)) % WORD)
    case Send(t) =>
      var event := c.emitters[t].event;
      if !c.open then At(c, t, Failed(event, Closed))
      else if |c.queue| >= l.capacity then At(c, t, Failed(event, Full))
      else At(c, t, Idle).(queue := c.queue + [event], accepted := c.accepted + [event])
    case GiveBack(t) =>
      At(c, t, Idle).(queued := (c.queued - PayloadBytes(c.emitters[t].event)) % WORD)
    case Take =>
      c.(queue := c.queue[1..], taken := Some(c.queue[0]))
    case Release =>
      c.(taken := None, received := c.received + [c.taken.value],
         queued := (c.queued - PayloadBytes(c.taken.value)) % WORD)
    case Drop =>
      c.(open := false, queue := [], abandoned := c.queue)
  }

  // ---------------------------------------------------------------------------------------------
  // The budget
  // ---------------------------------------------------------------------------------------------

  /** Bytes an emitter has reserved and neither handed over nor given back. */
  function Holding(e: Emitter): nat {
    if e.Reserved? || e.Failed? then PayloadBytes(e.event) else 0
  }

  function AllHolding(emitters: seq<Emitter>): nat {
    if emitters == [] then 0 else Holding(emitters[0]) + AllHolding(emitters[1..])
  }

  function Bytes(events: seq<AgentEvent>): nat {
    if events == [] then 0 else PayloadBytes(events[0]) + Bytes(events[1..])
  }

  function TakenBytes(taken: Option<AgentEvent>): nat {
    if taken.Some? then PayloadBytes(taken.value) else 0
  }

  function Pending(taken: Option<AgentEvent>): seq<AgentEvent> {
    if taken.Some? then [taken.value] else []
  }

  lemma {:induction false} HoldingChanges(emitters: seq<Emitter>, t: nat, e: Emitter)
    requires t < |emitters|
    ensures AllHolding(emitters[t := e]) == AllHolding(emitters) - Holding(emitters[t]) + Holding(e)
  {
    if t > 0 {
      HoldingChanges(emitters[1..], t - 1, e);
      assert emitters[t := e][1..] == emitters[1..][t - 1 := e];
    }
  }

  lemma {:induction false} BytesAppend(events: seq<AgentEvent>, event: AgentEvent)
    ensures Bytes(events + [event]) == Bytes(events) + PayloadBytes(event)
  {
    if events == [] {
      assert events + [event] == [event];
    } else {
      BytesAppend(events[1..], event);
      assert (events + [event])[1..] == events[1..] + [event];
    }
  }

  /** What the counter ought to say: everything reserved, enqueued, taken but unreleased, or left
      behind by a dropped receiver. */
  function Owed(c: Channel): nat {
    AllHolding(c.emitters) + Bytes(c.queue) + TakenBytes(c.taken) + Bytes(c.abandoned)
  }

  ghost predicate Modest(l: Limits, e: Emitter) {
    && (!e.Idle? ==> PayloadBytes(e.event) <= l.maxEventBytes)
    && (e.Loaded? ==> e.current <= l.maxQueuedBytes)
  }

  /** The counter is exact and within its ceiling; the channel never holds more than its capacity. */
  ghost predicate Budget(l: Limits, c: Channel) {
    && c.queued == Owed(c) <= l.maxQueuedBytes
    && |c.queue| <= l.capacity
    && forall t | 0 <= t < |c.emitters| :: Modest(l, c.emitters[t])
  }

  /** Within the word, wrap-around arithmetic is arithmetic. */
  lemma Exact(x: int)
    requires 0 <= x < WORD
    ensures x % WORD == x
  {
  }

  lemma EmitterMoves(l: Limits, c: Channel, t: nat, e: Emitter, queued: nat)
    requires Budget(l, c) && t < |c.emitters| && Modest(l, e)
    requires queued == c.queued - Holding(c.emitters[t]) + Holding(e) <= l.maxQueuedBytes
    ensures Budget(l, At(c, t, e).(queued := queued))
  {
    HoldingChanges(c.emitters, t, e);
  }

  lemma LoadKeepsBudget(l: Limits, c: Channel, t: nat, event: AgentEvent)
    requires Enabled(c, Load(t, event)) && Budget(l, c)
    ensures Budget(l, After(l, c, Load(t, event)))
  {
    if PayloadBytes(event) <= l.maxEventBytes {
      EmitterMoves(l, c, t, Loaded(event, c.queued), c.queued);
    }
  }

  lemma ExchangeKeepsBudget(l: Limits, c: Channel, t: nat, spurious: bool)
    requires Summable(l) && Enabled(c, Exchange(t, spurious)) && Budget(l, c)
    ensures Budget(l, After(l, c, Exchange(t, spurious)))
  {
    var Loaded(event, current) := c.emitters[t];
    assert Modest(l, c.emitters[t]);
    Exact(current + PayloadBytes(event));
    if Exceeds(l, current, event) {
      EmitterMoves(l, c, t, Idle, c.queued);
    } else if spurious || c.queued != current {
      EmitterMoves(l, c, t, Loaded(event, c.queued), c.queued);
    } else {
      EmitterMoves(l, c, t, Reserved(event), c.queued + PayloadBytes(event));
    }
  }

  lemma GiveBackKeepsBudget(l: Limits, c: Channel, t: nat)
    requires Summable(l) && Enabled(c, GiveBack(t)) && Budget(l, c)
    ensures Budget(l, After(l, c, GiveBack(t)))
  {
    HoldingChanges(c.emitters, t, Idle);
    Exact(c.queued - PayloadBytes(c.emitters[t].event));
    EmitterMoves(l, c, t, Idle, c.queued - PayloadBytes(c.emitters[t].event));
  }

  lemma SendKeepsBudget(l: Limits, c: Channel, t: nat)
    requires Summable(l) && Enabled(c, Send(t)) && Budget(l, c)
    ensures Budget(l, After(l, c, Send(t)))
  {
    assert Modest(l, c.emitters[t]);
    HoldingChanges(c.emitters, t, After(l, c, Send(t)).emitters[t]);
    BytesAppend(c.queue, c.emitters[t].event);
  }

  lemma ReceiverKeepsBudget(l: Limits, c: Channel, step: Step)
    requires Summable(l) && Enabled(c, step) && Budget(l, c) && (c.open ==> c.abandoned == [])
    requires step.Take? || step.Release? || step.Drop?
    ensures Budget(l, After(l, c, step))
  {
    if step.Release? {
      Exact(c.queued - PayloadBytes(c.taken.value));
    }
  }

  // ---------------------------------------------------------------------------------------------
  // Every interleaving
  // ---------------------------------------------------------------------------------------------

  /** What was accepted is, in order, what was received, then what was taken, then what is queued or
      was left in the queue of a dropped receiver. */
  ghost predicate InOrder(c: Channel) {
    && c.accepted == c.received + Pending(c.taken) + c.queue + c.abandoned
    && (if c.open then c.abandoned == [] else c.taken.None? && c.queue == [])
  }

  lemma StepKeepsOrder(l: Limits, c: Channel, step: Step)
    requires Enabled(c, step) && InOrder(c)
    ensures InOrder(After(l, c, step))
  {
  }

  ghost predicate Inv(l: Limits, c: Channel) {
    Budget(l, c) && InOrder(c)
  }

  lemma StepKeepsInv(l: Limits, c: Channel, step: Step)
    requires Summable(l) && Enabled(c, step) && Inv(l, c)
    ensures Inv(l, After(l, c, step))
  {
    StepKeepsOrder(l, c, step);
    match step {
      case Load(t, event) => LoadKeepsBudget(l, c, t, event);
      case Exchange(t, spurious) => ExchangeKeepsBudget(l, c, t, spurious);
      case GiveBack(t) => GiveBackKeepsBudget(l, c, t);
      case Send(t) => SendKeepsBudget(l, c, t);
      case _ => ReceiverKeepsBudget(l, c, step);
    }
  }

  function Fresh(emitters: nat): Channel {
    Channel(0, seq(emitters, _ => Idle), [], None, true, [], [], [])
  }

  ghost predicate StepAt(l: Limits, states: seq<Channel>, steps: seq<Step>, i: nat)
    requires i < |steps| && |states| == |steps| + 1
  {
    Enabled(states[i], steps[i]) && states[i + 1] == After(l, states[i], steps[i])
  }

  ghost predicate Steps(l: Limits, states: seq<Channel>, steps: seq<Step>) {
    && |states| == |steps| + 1
    && forall i: nat | i < |steps| :: StepAt(l, states, steps, i)
  }

  ghost predicate Run(l: Limits, emitters: nat, states: seq<Channel>, steps: seq<Step>) {
    Steps(l, states, steps) && states[0] == Fresh(emitters)
  }

  lemma {:induction false} NobodyHolds(n: nat)
    ensures AllHolding(seq(n, _ => Idle)) == 0
  {
    if n > 0 {
      NobodyHolds(n - 1);
      assert seq(n, _ => Idle)[1..] == seq(n - 1, _ => Idle);
    }
  }

  lemma {:induction false} RunKeepsInv(l: Limits, emitters: nat, states: seq<Channel>, steps: seq<Step>, i: nat)
    requires Summable(l) && Run(l, emitters, states, steps) && i < |states|
    ensures Inv(l, states[i])
  {
    if i == 0 {
      NobodyHolds(emitters);
    } else {
      RunKeepsInv(l, emitters, states, steps, i - 1);
      assert StepAt(l, states, steps, i - 1);
      StepKeepsInv(l, states[i - 1], steps[i - 1]);
    }
  }

  /** At every instant the counter is exactly what is reserved, queued, taken or abandoned, it is
      within its ceiling, and the consumer has seen a prefix of what was accepted. */
  lemma RetentionIsBounded(l: Limits, emitters: nat, states: seq<Channel>, steps: seq<Step>, i: nat)
    requires Summable(l) && Run(l, emitters, states, steps) && i < |states|
    ensures states[i].queued == Owed(states[i]) <= l.maxQueuedBytes && |states[i].queue| <= l.capacity
    ensures states[i].received <= states[i].accepted
    ensures states[i].open ==> states[i].accepted == states[i].received + Pending(states[i].taken) + states[i].queue
  {
    RunKeepsInv(l, emitters, states, steps, i);
  }

  /** No addition overflows and no subtraction underflows the word. */
  lemma NothingWraps(l: Limits, emitters: nat, states: seq<Channel>, steps: seq<Step>, i: nat)
    requires Summable(l) && Run(l, emitters, states, steps) && i < |steps|
    ensures var c := states[i];
      match steps[i]
      case Exchange(t, _) => t < |c.emitters| && c.emitters[t].Loaded?
        && c.emitters[t].current + PayloadBytes(c.emitters[t].event) < WORD
      case GiveBack(t) => t < |c.emitters| && c.emitters[t].Failed? && PayloadBytes(c.emitters[t].event) <= c.queued
      case Release => c.taken.Some? && PayloadBytes(c.taken.value) <= c.queued
      case _ => true
  {
    RunKeepsInv(l, emitters, states, steps, i);
    assert StepAt(l, states, steps, i);
    match steps[i] {
      case Exchange(t, _) => assert Modest(l, states[i].emitters[t]);
      case GiveBack(t) => HoldingChanges(states[i].emitters, t, Idle);
      case _ =>
    }
  }

  /** Step `k` is where emitter `t` took its last look at the counter. */
  ghost predicate LastLook(states: seq<Channel>, steps: seq<Step>, i: nat, t: nat, event: AgentEvent, current: nat,
                           k: nat)
    requires i < |states| == |steps| + 1
  {
    && k < i && states[k].queued == current
    && (steps[k] == Load(t, event) || (steps[k].Exchange? && steps[k].t == t))
    && forall m: nat | k < m <= i :: InCall(states[m], t, event, current)
  }

  ghost predicate InCall(c: Channel, t: nat, event: AgentEvent, current: nat) {
    t < |c.emitters| && c.emitters[t] == Loaded(event, current)
  }

  lemma {:induction false} LastLookExists(l: Limits, emitters: nat, states: seq<Channel>, steps: seq<Step>, i: nat,
                                          t: nat)
    returns (k: nat)
    requires Run(l, emitters, states, steps) && i < |states| && t < |states[i].emitters|
      && states[i].emitters[t].Loaded?
    ensures LastLook(states, steps, i, t, states[i].emitters[t].event, states[i].emitters[t].current, k)
  {
    assert i > 0;
    assert StepAt(l, states, steps, i - 1);
    var step := steps[i - 1];
    if (step.Load? || step.Exchange?) && step.t == t {
      k := i - 1;
    } else {
      k := LastLookExists(l, emitters, states, steps, i - 1, t);
    }
  }

  /** A call turned away for the budget saw, with its own eyes, a counter that left no room. */
  lemma FullIsHonest(l: Limits, emitters: nat, states: seq<Channel>, steps: seq<Step>, i: nat) returns (k: nat)
    requires Summable(l) && Run(l, emitters, states, steps) && i < |steps|
    requires steps[i].Exchange? && Enabled(states[i], steps[i]) && Answer(l, states[i], steps[i]) == Rejected(Full)
    ensures var e := states[i].emitters[steps[i].t];
      LastLook(states, steps, i, steps[i].t, e.event, e.current, k)
        && states[k].queued + PayloadBytes(e.event) > l.maxQueuedBytes
  {
    RunKeepsInv(l, emitters, states, steps, i);
    assert Modest(l, states[i].emitters[steps[i].t]);
    k := LastLookExists(l, emitters, states, steps, i, steps[i].t);
  }

  predicate By(step: Step, t: nat) {
    (step.Load? || step.Exchange? || step.Send? || step.GiveBack?) && step.t == t
  }

  /** A retry that is not spurious means that, since this call's last look, another emitter or the
      receiver moved the counter: nobody retries without somebody getting on. */
  lemma RetryMeansProgress(l: Limits, emitters: nat, states: seq<Channel>, steps: seq<Step>, i: nat)
    returns (k: nat, m: nat)
    requires Run(l, emitters, states, steps) && i < |steps|
    requires steps[i].Exchange? && Enabled(states[i], steps[i])
      && states[i].queued != states[i].emitters[steps[i].t].current
    ensures var e := states[i].emitters[steps[i].t]; LastLook(states, steps, i, steps[i].t, e.event, e.current, k)
    ensures k < m < i && !By(steps[m], steps[i].t) && states[m].queued != states[m + 1].queued
  {
    var t := steps[i].t;
    var e := states[i].emitters[t];
    k := LastLookExists(l, emitters, states, steps, i, t);
    m := Movement(states, k, i);
    assert StepAt(l, states, steps, m) && InCall(states[m + 1], t, e.event, e.current);
    assert m > k ==> InCall(states[m], t, e.event, e.current);
  }

  lemma {:induction false} Movement(states: seq<Channel>, k: nat, i: nat) returns (m: nat)
    requires k < i < |states| && states[k].queued != states[i].queued
    ensures k <= m < i && states[m].queued != states[m + 1].queued
    decreases i - k
  {
    if states[k].queued != states[k + 1].queued {
      m := k;
    } else {
      m := Movement(states, k + 1, i);
    }
  }

  /** When every call has returned and the consumer has caught up, the whole budget is free again. */
  lemma QuietMeansEmpty(l: Limits, emitters: nat, states: seq<Channel>, steps: seq<Step>, i: nat)
    requires Summable(l) && Run(l, emitters, states, steps) && i < |states|
    requires states[i].open && states[i].queue == [] && states[i].taken.None?
    requires forall t | 0 <= t < |states[i].emitters| :: states[i].emitters[t].Idle?
    ensures states[i].queued == 0 && states[i].received == states[i].accepted
  {
    RunKeepsInv(l, emitters, states, steps, i);
    var n := |states[i].emitters|;
    NobodyHolds(n);
    assert states[i].emitters == seq(n, _ => Idle);
  }

  // ---------------------------------------------------------------------------------------------
  // When the budget can be trusted
  // ---------------------------------------------------------------------------------------------

  function Payload(bytes: nat): (event: AgentEvent)
    ensures PayloadBytes(event) == bytes
  {
    OutputDelta(seq(bytes, _ => 0))
  }

  /** One more emitter gets as far as its reservation. */
  lemma ReserveMore(l: Limits, n: nat, states: seq<Channel>, steps: seq<Step>, t: nat, bytes: nat)
    returns (states': seq<Channel>, steps': seq<Step>)
    requires Run(l, n, states, steps) && t < |states[|steps|].emitters| && states[|steps|].emitters[t].Idle?
    requires bytes <= l.maxEventBytes && (states[|steps|].queued + bytes) % WORD <= l.maxQueuedBytes
    ensures Run(l, n, states', steps')
    ensures var c := states[|steps|];
      states'[|steps'|] == At(c, t, Reserved(Payload(bytes))).(queued := (c.queued + bytes) % WORD)
  {
    var c := states[|steps|];
    var c1 := After(l, c, Load(t, Payload(bytes)));
    var c2 := After(l, c1, Exchange(t, false));
    states', steps' := states + [c1, c2], steps + [Load(t, Payload(bytes)), Exchange(t, false)];
    forall i: nat | i < |steps'| ensures StepAt(l, states', steps', i) {
      assert i < |steps| ==> StepAt(l, states, steps, i);
    }
    assert c.emitters[t := Loaded(Payload(bytes), c.queued)][t := Reserved(Payload(bytes))]
      == c.emitters[t := Reserved(Payload(bytes))];
  }

  /** `k` emitters can between them reserve `k` bytes, up to the ceiling. */
  lemma {:induction false} Crowd(l: Limits, n: nat, k: nat) returns (states: seq<Channel>, steps: seq<Step>)
    requires 0 < l.maxEventBytes && l.maxQueuedBytes < WORD && k <= n && k <= l.maxQueuedBytes
    ensures Run(l, n, states, steps)
    ensures var c := states[|steps|];
      && |c.emitters| == n && c.queued == Owed(c) == k
      && forall t | k <= t < n :: c.emitters[t].Idle?
  {
    if k == 0 {
      states, steps := [Fresh(n)], [];
      NobodyHolds(n);
    } else {
      var states0, steps0 := Crowd(l, n, k - 1);
      var c := states0[|steps0|];
      Exact(c.queued + 1);
      states, steps := ReserveMore(l, n, states0, steps0, k - 1, 1);
      HoldingChanges(c.emitters, k - 1, Reserved(Payload(1)));
    }
  }

  /** The byte budget holds in every run exactly when the two limits fit in a word together. If they
      do not, one emitter more can wrap the counter around to zero. */
  lemma BudgetHoldsIffSummable(l: Limits)
    requires l.maxEventBytes < WORD && l.maxQueuedBytes < WORD
    ensures Summable(l) <==> forall n, states, steps :: Run(l, n, states, steps) ==> Budget(l, states[|steps|])
  {
    if Summable(l) {
      forall n, states, steps | Run(l, n, states, steps) ensures Budget(l, states[|steps|]) {
        RunKeepsInv(l, n, states, steps, |steps|);
      }
    } else {
      var q := l.maxQueuedBytes;
      var states0, steps0 := Crowd(l, q + 1, q);
      var states, steps := ReserveMore(l, q + 1, states0, steps0, q, WORD - q);
      HoldingChanges(states0[|steps0|].emitters, q, Reserved(Payload(WORD - q)));
      assert Run(l, q + 1, states, steps) && states[|steps|].queued == 0 && Owed(states[|steps|]) == WORD;
    }
  }
}
