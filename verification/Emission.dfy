/** One `try_emit` call among others. What other emitters and the receiver do between its atomic
    steps, and which of its weak exchanges fail spuriously, is given by the caller. */
module Emission {
  import opened Collections
  import opened EventChannel

  /** What happens before one compare-exchange, and whether that one fails for no reason. */
  datatype Round = Round(others: seq<Step>, spurious: bool)

  datatype Trace = Trace(states: seq<Channel>, steps: seq<Step>)

  /** A genuine stretch of a run, ending in `c`. */
  ghost predicate Leads(l: Limits, tr: Trace, c: Channel) {
    Steps(l, tr.states, tr.steps) && tr.states[|tr.steps|] == c
  }

  /** Step `i` put emitter `t`'s event in the queue. */
  ghost predicate EmittedAt(l: Limits, tr: Trace, t: nat, i: nat)
    requires Steps(l, tr.states, tr.steps) && i < |tr.steps|
  {
    assert StepAt(l, tr.states, tr.steps, i);
    tr.steps[i] == Send(t) && Answer(l, tr.states[i], tr.steps[i]) == Emitted
  }

  /** Emitter `t` has put nothing in the queue in the first `n` steps. */
  ghost predicate NothingYet(l: Limits, tr: Trace, t: nat, n: nat)
    requires Steps(l, tr.states, tr.steps) && n <= |tr.steps|
  {
    forall i: nat | i < n :: !EmittedAt(l, tr, t, i)
  }

  ghost predicate Underway(l: Limits, start: Channel, tr: Trace, c: Channel, t: nat) {
    Leads(l, tr, c) && tr.states[0] == start && NothingYet(l, tr, t, |tr.steps|) && Inv(l, c) && t < |c.emitters|
  }

  ghost function Extended(tr: Trace, step: Step, c: Channel): Trace {
    Trace(tr.states + [c], tr.steps + [step])
  }

  lemma StepExtends(l: Limits, start: Channel, tr: Trace, c: Channel, t: nat, step: Step)
    requires Summable(l) && Underway(l, start, tr, c, t) && Enabled(c, step)
    ensures var tr', c' := Extended(tr, step, After(l, c, step)), After(l, c, step);
      && Leads(l, tr', c') && tr'.states[0] == start && Inv(l, c') && t < |c'.emitters|
      && NothingYet(l, tr', t, |tr.steps|)
      && (step != Send(t) || Answer(l, c, step) != Emitted ==> Underway(l, start, tr', c', t))
      && (step == Send(t) && Answer(l, c, step) == Emitted ==> EmittedAt(l, tr', t, |tr.steps|))
  {
    var tr', c' := Extended(tr, step, After(l, c, step)), After(l, c, step);
    StepKeepsInv(l, c, step);
    forall i: nat | i < |tr'.steps| ensures StepAt(l, tr'.states, tr'.steps, i) {
      assert i < |tr.steps| ==> StepAt(l, tr.states, tr.steps, i);
    }
    forall i: nat | i < |tr.steps| ensures !EmittedAt(l, tr', t, i) {
      assert !EmittedAt(l, tr, t, i);
    }
  }

  /** Whatever the others do, they leave this call's place in `try_emit` alone. */
  method Interfere(l: Limits, ghost start: Channel, c: Channel, t: nat, others: seq<Step>, ghost tr: Trace)
    returns (c': Channel, ghost tr': Trace)
    requires Summable(l) && Underway(l, start, tr, c, t)
    ensures Underway(l, start, tr', c', t) && c'.emitters[t] == c.emitters[t]
    ensures others == [] ==> c' == c
  {
    c', tr' := c, tr;
    for i := 0 to |others|
      invariant Underway(l, start, tr', c', t) && c'.emitters[t] == c.emitters[t]
      invariant others == [] ==> c' == c
    {
      if !By(others[i], t) && Enabled(c', others[i]) {
        StepExtends(l, start, tr', c', t, others[i]);
        tr' := Extended(tr', others[i], After(l, c', others[i]));
        c' := After(l, c', others[i]);
      }
    }
  }

  /** The result of one call to an otherwise idle channel. */
  function Expected(l: Limits, c: Channel, event: AgentEvent): Result<(), SendError> {
    var bytes := PayloadBytes(event);
    if bytes > l.maxEventBytes || c.queued + bytes > l.maxQueuedBytes then Err(Full)
    else if !c.open then Err(Closed)
    else if |c.queue| >= l.capacity then Err(Full)
    else Ok(())
  }

  /** What happens around one call: before each exchange, before its send, and before it gives back
      a reservation the queue refused. */
  datatype Company = Company(rounds: seq<Round>, beforeSend: seq<Step>, beforeGiveBack: seq<Step>)

  ghost predicate Alone(company: Company) {
    company.beforeSend == [] && company.beforeGiveBack == []
    && forall i | 0 <= i < |company.rounds| :: company.rounds[i].others == []
  }

  /** One atomic step of this call. */
  method Act(l: Limits, ghost start: Channel, c: Channel, t: nat, step: Step, ghost tr: Trace)
    returns (c': Channel, ghost tr': Trace)
    requires Summable(l) && Underway(l, start, tr, c, t) && Enabled(c, step) && !step.Send?
    ensures c' == After(l, c, step) && Underway(l, start, tr', c', t)
  {
    StepExtends(l, start, tr, c, t, step);
    tr' := Extended(tr, step, After(l, c, step));
    c' := After(l, c, step);
  }

  /** One compare-exchange, after whatever the others did first. */
  method Attempt(l: Limits, ghost start: Channel, c: Channel, t: nat, others: seq<Step>, spurious: bool,
                 ghost tr: Trace)
    returns (c': Channel, ghost tr': Trace)
    requires Summable(l) && Underway(l, start, tr, c, t) && c.emitters[t].Loaded?
    ensures Underway(l, start, tr', c', t)
    ensures var event, e := c.emitters[t].event, c'.emitters[t];
      e == Loaded(event, c'.queued) || e == Reserved(event) || e == Idle
    ensures others == [] && c.queued == c.emitters[t].current ==>
      c' == Settled(l, c, t) || (spurious && c' == c)
  {
    c', tr' := Interfere(l, start, c, t, others, tr);
    Looks(l, c', t);
    c', tr' := Act(l, start, c', t, Exchange(t, spurious), tr');
  }

  /** The compare-exchange loop, from the first look at the counter. */
  method Reserve(l: Limits, ghost start: Channel, c: Channel, t: nat, event: AgentEvent, company: Company,
                 ghost tr: Trace)
    returns (c': Channel, ok: bool, ghost tr': Trace)
    requires Summable(l) && Underway(l, start, tr, c, t) && c.emitters[t] == Loaded(event, c.queued)
    ensures Underway(l, start, tr', c', t) && c'.emitters[t] == if ok then Reserved(event) else Idle
    ensures Alone(company) ==> ok == (c.queued + PayloadBytes(event) <= l.maxQueuedBytes)
    ensures Alone(company) ==>
      c' == if ok then At(c, t, Reserved(event)).(queued := c.queued + PayloadBytes(event)) else At(c, t, Idle)
  {
    c', tr' := c, tr;
    var n := 0;
    while c'.emitters[t].Loaded?
      invariant 0 <= n <= |company.rounds| + 1
      invariant Underway(l, start, tr', c', t)
      invariant c'.emitters[t].Loaded? ==> c'.emitters[t].event == event && n <= |company.rounds|
      invariant n == |company.rounds| && c'.emitters[t].Loaded? ==> c'.queued == c'.emitters[t].current
      invariant !c'.emitters[t].Loaded? ==> c'.emitters[t] == Reserved(event) || c'.emitters[t] == Idle
      invariant Alone(company) ==> c' == c || c' == Settled(l, c, t)
      decreases |company.rounds| + 1 - n
    {
      if n < |company.rounds| {
        c', tr' := Attempt(l, start, c', t, company.rounds[n].others, company.rounds[n].spurious, tr');
      } else {
        c', tr' := Attempt(l, start, c', t, [], false, tr');
      }
      n := n + 1;
    }
    ok := c'.emitters[t].Reserved?;
  }

  /** Where an undisturbed exchange loop ends. */
  function Settled(l: Limits, c: Channel, t: nat): Channel
    requires t < |c.emitters| && c.emitters[t].Loaded?
  {
    var event := c.emitters[t].event;
    if c.queued + PayloadBytes(event) <= l.maxQueuedBytes
    then At(c, t, Reserved(event)).(queued := c.queued + PayloadBytes(event))
    else At(c, t, Idle)
  }

  /** What one exchange does, in exact arithmetic. */
  lemma Looks(l: Limits, c: Channel, t: nat)
    requires Summable(l) && Inv(l, c) && t < |c.emitters| && c.emitters[t].Loaded?
    ensures Exceeds(l, c.emitters[t].current, c.emitters[t].event) <==>
      c.emitters[t].current + PayloadBytes(c.emitters[t].event) > l.maxQueuedBytes
    ensures !Exceeds(l, c.emitters[t].current, c.emitters[t].event) ==>
      (c.emitters[t].current + PayloadBytes(c.emitters[t].event)) % WORD
        == c.emitters[t].current + PayloadBytes(c.emitters[t].event)
    ensures c.queued == c.emitters[t].current ==> c == At(c, t, Loaded(c.emitters[t].event, c.queued))
  {
    assert Modest(l, c.emitters[t]);
    Exact(c.emitters[t].current + PayloadBytes(c.emitters[t].event));
  }

  /** Hand a reserved event over, or give its bytes back. */
  method Deliver(l: Limits, ghost start: Channel, c: Channel, t: nat, company: Company, ghost tr: Trace)
    returns (c': Channel, r: Result<(), SendError>, ghost tr': Trace)
    requires Summable(l) && Underway(l, start, tr, c, t) && c.emitters[t].Reserved?
    ensures Delivery(l, start, tr', c', t, r)
    ensures Alone(company) ==>
      r == (if !c.open then Err(Closed) else if |c.queue| >= l.capacity then Err(Full) else Ok(()))
    ensures Alone(company) ==> c' == if r.Ok? then AppendedBy(c, t) else
      At(c, t, Idle).(queued := (c.queued - PayloadBytes(c.emitters[t].event)) % WORD)
  {
    c', tr' := Interfere(l, start, c, t, company.beforeSend, tr);
    StepExtends(l, start, tr', c', t, Send(t));
    ghost var before := c';
    var emitted := c'.open && |c'.queue| < l.capacity;
    tr' := Extended(tr', Send(t), After(l, c', Send(t)));
    c' := After(l, c', Send(t));
    if emitted {
      return c', Ok(()), tr';
    }
    r := Err(c'.emitters[t].error);
    c', tr' := Refund(l, start, c', t, company.beforeGiveBack, tr');
  }

  /** Give the bytes of a refused event back. */
  method Refund(l: Limits, ghost start: Channel, c: Channel, t: nat, others: seq<Step>, ghost tr: Trace)
    returns (c': Channel, ghost tr': Trace)
    requires Summable(l) && Underway(l, start, tr, c, t) && c.emitters[t].Failed?
    ensures Underway(l, start, tr', c', t) && c'.emitters[t].Idle?
    ensures others == [] ==> c' == At(c, t, Idle).(queued := (c.queued - PayloadBytes(c.emitters[t].event)) % WORD)
  {
    c', tr' := Interfere(l, start, c, t, others, tr);
    c', tr' := Act(l, start, c', t, GiveBack(t), tr');
  }

  function AppendedBy(c: Channel, t: nat): Channel
    requires t < |c.emitters| && c.emitters[t].Reserved?
  {
    var event := c.emitters[t].event;
    At(c, t, Idle).(queue := c.queue + [event], accepted := c.accepted + [event])
  }

  /** The call has returned `r`: its event was enqueued once, by its last step, if `r` is Ok and
      never otherwise; and it keeps no reservation. */
  ghost predicate Delivery(l: Limits, start: Channel, tr: Trace, c: Channel, t: nat, r: Result<(), SendError>) {
    && Leads(l, tr, c) && tr.states[0] == start
    && Inv(l, c) && t < |c.emitters| && c.emitters[t].Idle?
    && (r.Ok? ==> |tr.steps| > 0 && EmittedAt(l, tr, t, |tr.steps| - 1) && NothingYet(l, tr, t, |tr.steps| - 1))
    && (r.Err? ==> NothingYet(l, tr, t, |tr.steps|))
  }

  /** Coming back to where it was, the emitter leaves no mark. */
  lemma Restored(c: Channel, t: nat, event: AgentEvent)
    requires t < |c.emitters| && c.emitters[t].Idle?
    ensures At(At(c, t, Loaded(event, c.queued)), t, Idle) == c
    ensures forall q: nat ::
      At(At(At(c, t, Loaded(event, c.queued)), t, Reserved(event)).(queued := q), t, Idle) == c.(queued := q)
  {
    assert c.emitters[t := Loaded(event, c.queued)][t := Idle] == c.emitters;
    assert c.emitters[t := Loaded(event, c.queued)][t := Reserved(event)][t := Idle] == c.emitters;
  }

  /** One call from its size check to its reply. It ends, because once nobody interferes the next
      exchange succeeds. Undisturbed, it is one atomic test-and-append that changes nothing when it
      refuses. */
  method TryEmit(l: Limits, c: Channel, t: nat, event: AgentEvent, company: Company)
    returns (c': Channel, r: Result<(), SendError>, ghost tr: Trace)
    requires Summable(l) && Inv(l, c) && t < |c.emitters| && c.emitters[t].Idle?
    ensures Delivery(l, c, tr, c', t, r)
    ensures Alone(company) ==> r == Expected(l, c, event)
    ensures Alone(company) ==> c' == if r.Err? then c else
      c.(queued := c.queued + PayloadBytes(event), queue := c.queue + [event], accepted := c.accepted + [event])
  {
    Restored(c, t, event);
    if PayloadBytes(event) > l.maxEventBytes {
      return c, Err(Full), Trace([c], []);
    }
    var ok;
    c', tr := Act(l, c, c, t, Load(t, event), Trace([c], []));
    c', ok, tr := Reserve(l, c, c', t, event, company, tr);
    if !ok {
      return c', Err(Full), tr;
    }
    Exact(c.queued);
    c', r, tr := Deliver(l, c, c', t, company, tr);
  }

  /** Take a ready event, releasing its bytes. */
  method TryRecv(l: Limits, c: Channel) returns (c': Channel, event: Option<AgentEvent>)
    requires Summable(l) && Inv(l, c) && c.taken.None? && c.open
    ensures Inv(l, c')
    ensures c.queue == [] ==> event == None && c' == c
    ensures c.queue != [] ==> event == Some(c.queue[0])
    ensures c.queue != [] ==>
      c' == c.(queue := c.queue[1..], received := c.received + [c.queue[0]],
               queued := c.queued - PayloadBytes(c.queue[0]))
  {
    if c.queue == [] {
      return c, None;
    }
    StepKeepsInv(l, c, Take);
    c' := After(l, c, Take);
    event := c'.taken;
    StepKeepsInv(l, c', Release);
    Exact(c.queued - PayloadBytes(c.queue[0]));
    c' := After(l, c', Release);
  }
}
