/** The lock-protected store as its callers use it. Each method is one section under the lock; a
    result settled there is sent to its waiters later, by `Publish`. */
module LocalRunStore {
  import opened Collections
  import opened LocalRun

  /** The members of a family among `keys`, in the order of `keys`. */
  ghost function Listed(h: Host, family: Family, keys: seq<Reference>): seq<Reference> {
    if keys == [] then []
    else
      var before, r := Listed(h, family, keys[..|keys| - 1]), keys[|keys| - 1];
      if r in In(h, family) then before + [r] else before
  }

  lemma {:induction false} ListedElements(h: Host, family: Family, keys: seq<Reference>)
    ensures Elements(Listed(h, family, keys)) == Elements(keys) * In(h, family)
  {
    if keys != [] {
      var init, r := keys[..|keys| - 1], keys[|keys| - 1];
      ListedElements(h, family, init);
      assert keys == init + [r];
      ElementsAppend(init, r);
      ElementsAppend(Listed(h, family, init), r);
    }
  }

  lemma {:induction false} ListedAscends(h: Host, family: Family, keys: seq<Reference>)
    requires Ascends(keys)
    ensures Ascends(Listed(h, family, keys))
  {
    if keys != [] {
      var init, r := keys[..|keys| - 1], keys[|keys| - 1];
      var before := Listed(h, family, init);
      ListedAscends(h, family, init);
      ListedElements(h, family, init);
      forall i | 0 <= i < |before| ensures before[i] < r {
        ElementAt(before, i);
        assert before[i] in Elements(init);
      }
    }
  }

  lemma ElementAt(keys: seq<Reference>, i: nat)
    requires i < |keys|
    ensures keys[i] in Elements(keys)
  {
  }

  lemma ListedInOrder(h: Host, family: Family)
    ensures Listed(h, family, Ascending(h.records.Keys)) == Ascending(In(h, family))
  {
    var keys := Ascending(h.records.Keys);
    ListedAscends(h, family, keys);
    ListedElements(h, family, keys);
    forall r | r in In(h, family) ensures r in Elements(keys) {}
    AscendingUnique(Listed(h, family, keys), Ascending(In(h, family)));
  }

  function References(claims: seq<StepClaim>): seq<Reference> {
    seq(|claims|, i requires 0 <= i < |claims| => claims[i].reference)
  }

  lemma ReferencesAppend(claims: seq<StepClaim>, claim: StepClaim)
    ensures References(claims + [claim]) == References(claims) + [claim.reference]
  {
  }

  /** Reconciliation has reached exactly the steps in `keys`. */
  ghost predicate Swept(h: Host, keys: seq<Reference>, records: map<Reference, StepRecord>,
                        channels: map<Reference, Channel>) {
    && records.Keys == h.records.Keys && channels.Keys == h.channels.Keys
    && (forall r | r in h.records :: records[r] == if r in keys then Recovered(h.records[r]) else h.records[r])
    && (forall r | r in h.channels :: channels[r] == if r in keys then ToldLost(h, r) else h.channels[r])
  }

  lemma SweptAll(h: Host, keys: seq<Reference>, records: map<Reference, StepRecord>, channels: map<Reference, Channel>)
    requires Swept(h, keys, records, channels)
    requires Elements(keys) == h.records.Keys == h.channels.Keys
    ensures records == map r | r in h.records :: Recovered(h.records[r])
    ensures channels == map r | r in h.channels :: ToldLost(h, r)
  {
    var all := map r | r in h.records :: Recovered(h.records[r]);
    var told := map r | r in h.channels :: ToldLost(h, r);
    assert all.Keys == h.records.Keys && told.Keys == h.channels.Keys;
    forall r | r in h.records ensures r in channels && records[r] == all[r] && channels[r] == told[r] {
      assert r in Elements(keys);
    }
    assert records == all;
    assert channels == told;
  }

  lemma SweptOne(h: Host, keys: seq<Reference>, r: Reference,
                 records: map<Reference, StepRecord>, channels: map<Reference, Channel>,
                 records': map<Reference, StepRecord>, channels': map<Reference, Channel>)
    requires Swept(h, keys, records, channels) && r !in keys && r in h.records && r in h.channels
    requires records' == records[r := Recovered(h.records[r])]
    requires channels' == channels[r := ToldLost(h, r)]
    ensures Swept(h, keys + [r], records', channels')
  {
  }

  lemma Unswept(h: Host, keys: seq<Reference>, r: Reference, records: map<Reference, StepRecord>,
                channels: map<Reference, Channel>)
    requires Swept(h, keys, records, channels) && r !in keys && r in h.records && r in h.channels
    ensures r in records && records[r] == h.records[r] && r in channels && channels[r] == h.channels[r]
  {
  }

  lemma ListedNext(h: Host, family: Family, keys: seq<Reference>, r: Reference)
    requires r in h.records
    ensures Listed(h, family, keys + [r])
      == Listed(h, family, keys) + if Of(family, h.records[r].state) then [r] else []
  {
    assert (keys + [r])[..|keys|] == keys;
  }

  ghost predicate Holders(h: Host, claims: seq<StepClaim>) {
    forall claim | claim in claims ::
      claim.reference in h.records && h.records[claim.reference].state == Launched(claim.epoch)
  }

  method SweepOne(h: Host, ghost done: seq<Reference>, r: Reference,
                  records: map<Reference, StepRecord>, channels: map<Reference, Channel>,
                  retryable: seq<Reference>, uncertain: seq<StepClaim>)
    returns (records': map<Reference, StepRecord>, channels': map<Reference, Channel>,
             retryable': seq<Reference>, uncertain': seq<StepClaim>)
    requires Swept(h, done, records, channels) && r !in done && r in h.records && r in h.channels
    requires Reported(h, done, retryable, uncertain)
    ensures Swept(h, done + [r], records', channels') && Reported(h, done + [r], retryable', uncertain')
  {
    records', channels', retryable', uncertain' := records, channels, retryable, uncertain;
    Unswept(h, done, r, records, channels);
    ListedNext(h, Retryable, done, r);
    ListedNext(h, InFlight, done, r);
    match records[r].state {
      case Claimed(_) =>
        records' := records[r := records[r].(state := Pending)];
        retryable' := retryable + [r];
      case Launched(epoch) =>
        records' := records[r := records[r].(state := Uncertain(epoch))];
        channels' := channels[r := Taken(channels[r], Lost(r))];
        ReferencesAppend(uncertain, StepClaim(r, epoch));
        uncertain' := uncertain + [StepClaim(r, epoch)];
      case _ =>
    }
    SweptOne(h, done, r, records, channels, records', channels');
  }

  ghost predicate Reported(h: Host, keys: seq<Reference>, retryable: seq<Reference>, uncertain: seq<StepClaim>) {
    && retryable == Listed(h, Retryable, keys)
    && References(uncertain) == Listed(h, InFlight, keys) && Holders(h, uncertain)
  }

  /** The loop meets its i-th reference for the first time. */
  ghost predicate FreshAt(h: Host, keys: seq<Reference>, i: nat) {
    i < |keys| ==>
      keys[i] in h.records && keys[i] in h.channels && keys[i] !in keys[..i] && keys[..i + 1] == keys[..i] + [keys[i]]
  }

  lemma NextPrefix(keys: seq<Reference>, i: nat)
    requires i < |keys|
    ensures keys[..i + 1] == keys[..i] + [keys[i]]
  {
  }

  lemma EachKeyIsFresh(h: Host)
    requires h.records.Keys == h.channels.Keys
    ensures forall i: nat :: FreshAt(h, Ascending(h.records.Keys), i)
  {
    var keys := Ascending(h.records.Keys);
    forall i: nat ensures FreshAt(h, keys, i) {
      if i < |keys| {
        ElementAt(keys, i);
        NextPrefix(keys, i);
      }
    }
  }

  lemma SweepEnds(h: Host, keys: seq<Reference>, records: map<Reference, StepRecord>, channels: map<Reference, Channel>,
                  retryable: seq<Reference>, uncertain: seq<StepClaim>)
    requires h.records.Keys == h.channels.Keys && keys == Ascending(h.records.Keys)
    requires Swept(h, keys, records, channels) && Reported(h, keys, retryable, uncertain)
    ensures h.(records := records, channels := channels,
               stats := h.stats.(uncertains := h.stats.uncertains + |uncertain|)) == AfterReconcile(h)
    ensures retryable == Ascending(In(h, Retryable)) && References(uncertain) == Ascending(In(h, InFlight))
    ensures Holders(h, uncertain)
  {
    SweptAll(h, keys, records, channels);
    ListedInOrder(h, Retryable);
    ListedInOrder(h, InFlight);
    assert |uncertain| == |References(uncertain)|;
  }

  /** The reconciliation loop. */
  method SweepKeys(h: Host, keys: seq<Reference>)
    returns (records: map<Reference, StepRecord>, channels: map<Reference, Channel>,
             retryable: seq<Reference>, uncertain: seq<StepClaim>)
    requires h.records.Keys == h.channels.Keys && forall i: nat :: FreshAt(h, keys, i)
    ensures Swept(h, keys, records, channels) && Reported(h, keys, retryable, uncertain)
  {
    records, channels, retryable, uncertain := h.records, h.channels, [], [];
    for i := 0 to |keys|
      invariant Swept(h, keys[..i], records, channels) && Reported(h, keys[..i], retryable, uncertain)
    {
      assert FreshAt(h, keys, i);
      records, channels, retryable, uncertain :=
        SweepOne(h, keys[..i], keys[i], records, channels, retryable, uncertain);
    }
    assert keys[..|keys|] == keys;
  }

  /** What becomes of every record and channel, and what is reported. */
  method Sweep(h: Host)
    returns (h': Host, retryable: seq<Reference>, uncertain: seq<StepClaim>)
    requires h.records.Keys == h.channels.Keys
    ensures h' == AfterReconcile(h)
    ensures retryable == Ascending(In(h, Retryable))
    ensures References(uncertain) == Ascending(In(h, InFlight)) && Holders(h, uncertain)
  {
    EachKeyIsFresh(h);
    var records, channels;
    records, channels, retryable, uncertain := SweepKeys(h, Ascending(h.records.Keys));
    SweepEnds(h, Ascending(h.records.Keys), records, channels, retryable, uncertain);
    h' := h.(records := records, channels := channels,
             stats := h.stats.(uncertains := h.stats.uncertains + |uncertain|));
  }

  lemma ClaimKeepsInv(h: Host, reference: Reference)
    requires Inv(h) && reference in h.records
    ensures After(h, Op.Claim(reference)) == AfterClaim(h, reference) && Inv(AfterClaim(h, reference))
  {
    KeepsInv(h, Op.Claim(reference));
  }

  class LocalRunStore {
    var records: map<Reference, StepRecord>
    var stats: Stats
    var nextEpoch: nat
    var channels: map<Reference, Channel>

    function Host(): Host
      reads this
    {
      LocalRun.Host(records, stats, nextEpoch, channels)
    }

    ghost predicate Valid()
      reads this
    {
      Inv(Host())
    }

    constructor ()
      ensures Valid() && Host() == Empty
    {
      records, stats, nextEpoch, channels := map[], NoStats, 0, map[];
      new;
      assert In(Empty, Past) == {} && In(Empty, Answered) == {} && In(Empty, Doubtful) == {};
    }

    /** Take in a step call under its identity; the first registration of an identity names it for
        good. */
    method Register(reference: Reference, call: StepCall) returns (reply: Reply)
      requires Valid()
      modifies this
      ensures Valid() && Host() == After(old(Host()), Op.Register(reference, call))
      ensures reply == Answer(old(Host()), Op.Register(reference, call))
    {
      KeepsInv(Host(), Op.Register(reference, call));
      if reference in records {
        var record := records[reference];
        if record.frozen != call.work {
          return Refused(Collision);
        }
        return Registered(record.state == Pending);
      }
      records := records[reference := StepRecord(Some(call), call.work, Pending, false)];
      channels := channels[reference := Channel(None, [])];
      stats := stats.(registered := stats.registered + 1);
      return Registered(true);
    }

    /** Let one delivery take a pending step; every other delivery is counted and skipped. */
    method Claim(reference: Reference) returns (reply: Reply)
      requires Valid()
      modifies this
      ensures Valid() && Host() == After(old(Host()), Op.Claim(reference))
      ensures reply == Answer(old(Host()), Op.Claim(reference))
    {
      if reference !in records {
        return Refused(Missing);
      }
      ghost var h := Host();
      ClaimKeepsInv(h, reference);
      stats := stats.(deliveries := stats.deliveries + 1);
      if records[reference].state != Pending {
        stats := stats.(duplicateSkips := stats.duplicateSkips + 1);
        reply := Skipped;
      } else if nextEpoch == MAX_EPOCH {
        reply := Refused(EpochOverflow);
      } else {
        nextEpoch := nextEpoch + 1;
        records := records[reference := records[reference].(state := Claimed(nextEpoch))];
        stats := stats.(claims := stats.claims + 1);
        reply := Granted(StepClaim(reference, nextEpoch));
      }
      assert Host() == AfterClaim(h, reference);
    }

    /** Hand the call over to the claim that holds the step. */
    method Launch(claim: StepClaim) returns (reply: Reply)
      requires Valid()
      modifies this
      ensures Valid() && Host() == After(old(Host()), Op.Launch(claim))
      ensures reply == Answer(old(Host()), Op.Launch(claim))
    {
      KeepsInv(Host(), Op.Launch(claim));
      if claim.reference !in records {
        return Refused(Missing);
      }
      var record := records[claim.reference];
      if record.state != Claimed(claim.epoch) {
        return Refused(WrongState);
      }
      if record.call.None? {
        return Refused(CallGone);
      }
      records := records[claim.reference := record.(call := None, state := Launched(claim.epoch))];
      stats := stats.(launches := stats.launches + 1);
      return Owned(record.call.value);
    }

    /** Record that the launched call is about to reach its provider. */
    method NoteProviderCall(claim: StepClaim) returns (reply: Reply)
      requires Valid()
      modifies this
      ensures Valid() && Host() == After(old(Host()), Op.NoteProviderCall(claim))
      ensures reply == Answer(old(Host()), Op.NoteProviderCall(claim))
    {
      KeepsInv(Host(), Op.NoteProviderCall(claim));
      if claim.reference !in records {
        return Refused(Missing);
      }
      var record := records[claim.reference];
      if record.state != Launched(claim.epoch) {
        return Refused(WrongState);
      }
      if record.providerCallRecorded {
        return Refused(AlreadyRecorded);
      }
      records := records[claim.reference := record.(providerCallRecorded := true)];
      stats := stats.(providerCalls := Increment(stats.providerCalls, claim.reference));
      return Done;
    }

    /** Settle a launched step. */
    method Complete(claim: StepClaim, result: TerminalResult) returns (reply: Reply)
      requires Valid()
      modifies this
      ensures Valid() && Host() == After(old(Host()), Op.Complete(claim, result))
      ensures reply == Answer(old(Host()), Op.Complete(claim, result))
    {
      KeepsInv(Host(), Op.Complete(claim, result));
      if claim.reference !in records {
        return Refused(Missing);
      }
      var record := records[claim.reference];
      if record.state != Launched(claim.epoch) {
        return Refused(WrongState);
      }
      if !record.providerCallRecorded {
        return Refused(NotRecorded);
      }
      records := records[claim.reference := record.(state := Terminal(claim.epoch))];
      channels := channels[claim.reference := Taken(channels[claim.reference], result)];
      stats := stats.(terminals := stats.terminals + 1);
      return Done;
    }

    /** Send a result that left the lock earlier. */
    method Publish(reference: Reference, k: nat)
      requires Valid() && Possible(Host(), Op.Publish(reference, k))
      modifies this`channels
      ensures Valid() && Host() == After(old(Host()), Op.Publish(reference, k))
    {
      KeepsInv(Host(), Op.Publish(reference, k));
      channels := channels[reference := Sent(channels[reference], k)];
    }

    /** Fence the work of a worker known to be gone: lost claims become pending again, lost launches
        uncertain. Both are reported in reference order, the latter with the epoch they ran under. */
    method ReconcileWorkerLoss() returns (retryable: seq<Reference>, uncertain: seq<StepClaim>)
      requires Valid()
      modifies this
      ensures Valid() && Host() == After(old(Host()), Op.ReconcileWorkerLoss)
      ensures retryable == Ascending(In(old(Host()), Retryable))
      ensures References(uncertain) == Ascending(In(old(Host()), InFlight))
      ensures Holders(old(Host()), uncertain)
    {
      ghost var h := Host();
      KeepsInv(h, Op.ReconcileWorkerLoss);
      var after;
      after, retryable, uncertain := Sweep(Host());
      records, stats, channels := after.records, after.stats, after.channels;
    }
  }
}
