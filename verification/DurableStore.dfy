/** The durable store as the host uses it: a file, the state folded from it, and the operations that
    append to one and update the other. */
module DurableStore {
  import opened Collections
  import opened DurableLog
  import opened DurableProtocol
  import opened LogFile
  import opened Whitespace
  import opened KeyOrder

  const MAX_RECORDED_OUTPUT: nat := 4096

  /** UTF-8 for the ellipsis that marks a truncated output. */
  const Ellipsis: seq<Byte> := [0xE2, 0x80, 0xA6]

  /** An index between two encoded characters: one not followed by a continuation byte. */
  predicate Boundary(output: seq<Byte>, i: nat) {
    i == 0 || i == |output| || (i < |output| && !(0x80 <= output[i] < 0xC0))
  }

  /** A short output unchanged; of a long one the longest prefix of whole characters within the limit,
      and a mark. */
  method BoundedOutput(output: seq<Byte>) returns (r: seq<Byte>)
    ensures |output| <= MAX_RECORDED_OUTPUT ==> r == output
    ensures |output| > MAX_RECORDED_OUTPUT ==>
      exists cut: nat :: cut <= MAX_RECORDED_OUTPUT && Boundary(output, cut) && r == output[..cut] + Ellipsis
        && forall k: nat | cut < k <= MAX_RECORDED_OUTPUT :: !Boundary(output, k)
    ensures |r| <= MAX_RECORDED_OUTPUT + 3
  {
    if |output| <= MAX_RECORDED_OUTPUT {
      return output;
    }
    var cut: nat := MAX_RECORDED_OUTPUT;
    while !Boundary(output, cut)
      invariant cut <= MAX_RECORDED_OUTPUT
      invariant forall k: nat | cut < k <= MAX_RECORDED_OUTPUT :: !Boundary(output, k)
      decreases cut
    {
      cut := cut - 1;
    }
    r := output[..cut] + Ellipsis;
  }

  /** A claim always holds its step's highest epoch, whatever the log says. */
  ghost predicate ClaimsHighest(s: Store) {
    forall key :: ClaimAt(s, key)
  }

  ghost predicate ClaimAt(s: Store, key: StepKey) {
    key in s.steps && s.steps[key].state.ClaimedBy? ==> s.steps[key].state.epoch == s.steps[key].highestEpoch
  }

  lemma ApplyClaimsHighest(s: Store, r: Record)
    requires ClaimsHighest(s)
    ensures ClaimsHighest(Apply(s, r))
  {
    forall key ensures ClaimAt(Apply(s, r), key) {
      assert ClaimAt(s, key);
    }
  }

  /** A lost claim taken over under a new epoch. */
  datatype Reclaim = Reclaim(key: StepKey, epoch: Epoch)

  class DurableStore {
    const codec: Codec
    var file: string
    var steps: map<StepKey, StepView>
    var cancelledRuns: map<string, string>

    function State(): Store
      reads this
    {
      Store(steps, cancelledRuns)
    }

    ghost predicate Valid()
      reads this
    {
      ClaimsHighest(State())
    }

    /** A process that reopened the file would see the state this one holds. */
    ghost predicate Synced()
      reads this
    {
      Sound(codec) && Terminated(file) && State() == FoldAll(Replay(codec, file))
    }

    /** A fresh store whose state is the fold of what `text` replays. */
    constructor Open(codec: Codec, text: string)
      ensures this.codec == codec && file == text
      ensures Valid() && State() == FoldAll(Replay(codec, text))
    {
      this.codec, file := codec, text;
      steps, cancelledRuns := map[], map[];
      new;
      var lines := Lines(text);
      ghost var log: seq<Record> := [];
      for i := 0 to |lines|
        invariant log == ReadAll(codec, lines[..i]) && State() == FoldAll(log) && Valid()
        invariant this.codec == codec && file == text
      {
        assert lines[..i + 1] == lines[..i] + [lines[i]];
        ReadAllConcatenates(codec, lines[..i], [lines[i]]);
        assert ReadAll(codec, [lines[i]]) == Read(codec, lines[i]) + ReadAll(codec, []);
        if !Blank(lines[i]) {
          var record := codec.decode(lines[i]);
          if record.Some? {
            FoldAppend(log, record.value);
            ApplyRecord(record.value);
            log := log + [record.value];
          }
        }
      }
      assert lines[..|lines|] == lines;
    }

    /** Fold one record in. */
    method ApplyRecord(r: Record)
      requires Valid()
      modifies this`steps, this`cancelledRuns
      ensures Valid() && State() == Apply(old(State()), r)
    {
      ApplyClaimsHighest(State(), r);
      match r {
        case Frozen(key, _, _, fingerprint, notAfter) =>
          if key !in steps {
            steps := steps[key := StepView(Pending, fingerprint, notAfter, 0)];
          }
        case CancelRequested(runId, reason) =>
          cancelledRuns := cancelledRuns[runId := reason];
        case _ =>
          if r.key in steps {
            steps := steps[r.key := Revise(steps[r.key], r)];
          }
      }
    }

    /** One line more in the file and one fold step more in the state. */
    method Append(r: Record)
      requires Valid()
      modifies this`file, this`steps, this`cancelledRuns
      ensures Valid() && State() == Apply(old(State()), r)
      ensures file == old(file) + Written(codec, [r])
      ensures old(Synced()) ==> Synced()
    {
      ghost var text := file;
      file := file + codec.encode(r) + "\n";
      ApplyRecord(r);
      assert Written(codec, [r]) == codec.encode(r) + "\n" + Written(codec, []);
      assert file == text + Written(codec, [r]);
      if old(Synced()) {
        ReplayAfterAppends(codec, text, [r]);
        FoldAppend(Replay(codec, text), r);
      }
    }

    /** Visit every lost step in key order: re-fence a claim under the next epoch, leave a launch in
        doubt, and report each in the order visited. */
    method RecoverLost(worker: string) returns (refenced: seq<Reclaim>, uncertain: seq<StepKey>)
      requires Valid()
      modifies this`file, this`steps, this`cancelledRuns
      ensures Valid() && State() == After(old(State()), Op.RecoverLost(worker))
      ensures refenced == Refenced(old(steps), InKeyOrder(LostKeys(old(steps))))
      ensures uncertain == LeftInDoubt(old(steps), InKeyOrder(LostKeys(old(steps))))
      ensures file == old(file) + Written(codec, RecoveryLog(old(steps), InKeyOrder(LostKeys(old(steps))), worker))
      ensures old(Synced()) ==> Synced()
    {
      ghost var before := State();
      EachKeyIsLost(steps);
      refenced, uncertain := RecoverKeys(InKeyOrder(LostKeys(steps)), worker);
      SweepDone(before, State());
    }

    /** The recovery loop. */
    method RecoverKeys(keys: seq<StepKey>, worker: string) returns (refenced: seq<Reclaim>, uncertain: seq<StepKey>)
      requires Valid() && AllLostAt(steps, keys)
      modifies this`file, this`steps, this`cancelledRuns
      ensures Valid() && Recovering(codec, old(State()), old(file), keys, worker, State(), file, refenced, uncertain)
      ensures old(Synced()) ==> Synced()
    {
      var before := steps;
      ghost var text, store, synced := file, State(), Synced();
      refenced, uncertain := [], [];
      for i := 0 to |keys|
        invariant Valid() && (synced ==> Synced())
        invariant Recovering(codec, store, text, keys[..i], worker, State(), file, refenced, uncertain)
      {
        assert LostAt(before, keys, i);
        refenced, uncertain := RecoverStep(store, text, before, keys, i, worker, refenced, uncertain);
      }
      assert keys[..|keys|] == keys;
    }

    /** One lost step of it. */
    method RecoverStep(ghost store: Store, ghost text: string, before: map<StepKey, StepView>, keys: seq<StepKey>,
                       i: nat, worker: string, refenced: seq<Reclaim>, uncertain: seq<StepKey>)
      returns (refenced': seq<Reclaim>, uncertain': seq<StepKey>)
      requires Valid() && store.steps == before && i < |keys| && LostAt(before, keys, i)
      requires Recovering(codec, store, text, keys[..i], worker, State(), file, refenced, uncertain)
      modifies this`file, this`steps, this`cancelledRuns
      ensures Valid() && Recovering(codec, store, text, keys[..i + 1], worker, State(), file, refenced', uncertain')
      ensures old(Synced()) ==> Synced()
    {
      var key, state := keys[i], before[keys[i]].state;
      var record := RecoveryRecord(key, state, worker);
      refenced', uncertain' := refenced, uncertain;
      match state {
        case ClaimedBy(epoch) => refenced' := refenced + [Reclaim(key, epoch + 1)];
        case LaunchedBy(_) => uncertain' := uncertain + [key];
      }
      RecoverNext(codec, store, text, keys, i, worker, State(), file, refenced, uncertain, refenced', uncertain');
      Append(record);
    }

    /** Answer a delivery by the first rule that applies; a positive answer is also recorded as a claim
        under the epoch it carries. */
    method Admit(job: StepJobRef, fingerprint: string, worker: string, now: nat) returns (admission: Admission)
      requires Valid()
      modifies this`file, this`steps, this`cancelledRuns
      ensures admission == Decide(old(State()), job, fingerprint, now)
      ensures Valid() && State() == After(old(State()), Op.Admit(job, fingerprint, worker, now))
      ensures !admission.Run? ==> file == old(file) && State() == old(State())
      ensures admission.Run? ==> State().steps[KeyOf(job)].state == ClaimedBy(admission.epoch)
      ensures old(Synced()) ==> Synced()
    {
      admission := Decide(State(), job, fingerprint, now);
      if admission.Run? {
        Append(Claimed(KeyOf(job), admission.epoch, worker));
      }
    }

    /** Record the launch, then the result of the call. The result is returned whether or not the store
        accepted it; it becomes the answer exactly when the step is known, not done, and not claimed under a
        later epoch. */
    method Execute(key: StepKey, epoch: Epoch, provider: Result<seq<Byte>, string>) returns (result: TerminalRecord)
      requires Valid()
      modifies this`file, this`steps, this`cancelledRuns
      ensures Valid() && State() == After(After(old(State()), Launch(key, epoch)), Settle(key, epoch, result))
      ensures provider.Err? ==> result == Failed("provider", provider.error)
      ensures provider.Ok? ==> result.Succeeded? && |result.output| <= MAX_RECORDED_OUTPUT + 3
      ensures provider.Ok? && |provider.value| <= MAX_RECORDED_OUTPUT ==> result == Succeeded(provider.value)
      ensures if key in old(steps) && !old(steps)[key].state.Done? && epoch >= old(steps)[key].highestEpoch
              then State() == old(State()).(steps := old(steps)[key := old(steps)[key].(state := Done(result))])
              else State() == old(State())
      ensures old(Synced()) ==> Synced()
    {
      ghost var before := State();
      Append(Launched(key, epoch));
      match provider {
        case Ok(output) =>
          var kept := BoundedOutput(output);
          result := Succeeded(kept);
        case Err(message) =>
          result := Failed("provider", message);
      }
      Append(Settled(key, epoch, result));
      LaunchThenSettle(before, key, epoch, result);
    }

    method Freeze(key: StepKey, fingerprint: string, notAfter: Option<nat>)
      requires Valid()
      modifies this`file, this`steps, this`cancelledRuns
      ensures Valid() && State() == After(old(State()), Op.Freeze(key, fingerprint, notAfter))
      ensures key in State().steps && (key in old(steps) ==> State() == old(State()))
      ensures old(Synced()) ==> Synced()
    {
      Append(Frozen(key, "repository-review", "v1", fingerprint, notAfter));
    }
  }

  predicate IsLost(state: StepState) {
    state.ClaimedBy? || state.LaunchedBy?
  }

  function LostKeys(steps: map<StepKey, StepView>): set<StepKey> {
    set key | key in steps && IsLost(steps[key].state)
  }

  ghost predicate AllLost(steps: map<StepKey, StepView>, keys: seq<StepKey>) {
    forall key | key in keys :: key in steps && IsLost(steps[key].state)
  }

  /** The re-fenced claims among `keys`, in their order, each with its new epoch. */
  ghost function Refenced(steps: map<StepKey, StepView>, keys: seq<StepKey>): seq<Reclaim> {
    if keys == [] then []
    else
      var before, key := Refenced(steps, keys[..|keys| - 1]), keys[|keys| - 1];
      if key in steps && steps[key].state.ClaimedBy? then before + [Reclaim(key, steps[key].state.epoch + 1)]
        else before
  }

  /** The lost launches among `keys`, in their order. */
  ghost function LeftInDoubt(steps: map<StepKey, StepView>, keys: seq<StepKey>): seq<StepKey> {
    if keys == [] then []
    else
      var before, key := LeftInDoubt(steps, keys[..|keys| - 1]), keys[|keys| - 1];
      if key in steps && steps[key].state.LaunchedBy? then before + [key] else before
  }

  /** What a sweep over `keys` appends. */
  ghost function RecoveryLog(steps: map<StepKey, StepView>, keys: seq<StepKey>, worker: string): seq<Record> {
    if keys == [] then []
    else
      var before, key := RecoveryLog(steps, keys[..|keys| - 1], worker), keys[|keys| - 1];
      if key in steps && IsLost(steps[key].state) then before + [RecoveryRecord(key, steps[key].state, worker)]
        else before
  }

  /** The loop meets its `i`-th key for the first time, and it is lost. */
  ghost predicate LostAt(steps: map<StepKey, StepView>, keys: seq<StepKey>, i: nat) {
    i < |keys| ==> keys[i] in steps && IsLost(steps[keys[i]].state) && keys[i] !in keys[..i]
  }

  ghost predicate AllLostAt(steps: map<StepKey, StepView>, keys: seq<StepKey>) {
    forall i: nat :: LostAt(steps, keys, i)
  }

  lemma KeyOnce(keys: seq<StepKey>, i: nat)
    requires Sorted(keys) && i < |keys|
    ensures keys[i] !in keys[..i] && keys[i] in Elements(keys)
  {
    forall j | 0 <= j < i ensures keys[..i][j] != keys[i] {
      KeyTotal(keys[j], keys[j]);
    }
  }

  lemma EachKeyIsLost(steps: map<StepKey, StepView>)
    ensures AllLostAt(steps, InKeyOrder(LostKeys(steps)))
  {
    var keys := InKeyOrder(LostKeys(steps));
    forall i: nat ensures LostAt(steps, keys, i) {
      if i < |keys| {
        KeyOnce(keys, i);
      }
    }
  }

  /** A recovery sweep that has reached exactly the steps in `done`. */
  ghost predicate Swept(before: Store, s: Store, done: seq<StepKey>) {
    && s.cancelledRuns == before.cancelledRuns && s.steps.Keys == before.steps.Keys
    && forall key :: SweptAt(before, s, done, key)
  }

  ghost predicate SweptAt(before: Store, s: Store, done: seq<StepKey>, key: StepKey) {
    key in s.steps && key in before.steps ==>
      s.steps[key] == if key in done then RecoverView(before.steps[key]) else before.steps[key]
  }

  /** How far a recovery has got: the state, the file and the two reports after the steps in `done`. */
  ghost predicate Recovering(c: Codec, before: Store, text: string, done: seq<StepKey>, worker: string,
                             s: Store, file: string, refenced: seq<Reclaim>, uncertain: seq<StepKey>) {
    && Swept(before, s, done) && file == text + Written(c, RecoveryLog(before.steps, done, worker))
    && refenced == Refenced(before.steps, done) && uncertain == LeftInDoubt(before.steps, done)
  }

  lemma SweptNext(before: Store, s: Store, done: seq<StepKey>, key: StepKey, worker: string)
    requires Swept(before, s, done) && ClaimsHighest(s)
    requires key in before.steps && IsLost(before.steps[key].state) && key !in done
    ensures Swept(before, Apply(s, RecoveryRecord(key, before.steps[key].state, worker)), done + [key])
  {
    assert ClaimAt(s, key) && SweptAt(before, s, done, key);
    var s' := Apply(s, RecoveryRecord(key, before.steps[key].state, worker));
    forall k ensures SweptAt(before, s', done + [key], k) {
      assert SweptAt(before, s, done, k);
    }
  }

  lemma ReportsNext(steps: map<StepKey, StepView>, keys: seq<StepKey>, i: nat)
    requires i < |keys| && keys[i] in steps && IsLost(steps[keys[i]].state)
    ensures var state := steps[keys[i]].state;
      && Refenced(steps, keys[..i + 1])
        == (if state.ClaimedBy? then Refenced(steps, keys[..i]) + [Reclaim(keys[i], state.epoch + 1)]
          else Refenced(steps, keys[..i]))
      && LeftInDoubt(steps, keys[..i + 1])
        == (if state.ClaimedBy? then LeftInDoubt(steps, keys[..i]) else LeftInDoubt(steps, keys[..i]) + [keys[i]])
  {
    assert keys[..i + 1][..i] == keys[..i];
  }

  lemma FileNext(c: Codec, steps: map<StepKey, StepView>, text: string, keys: seq<StepKey>, i: nat, worker: string)
    requires i < |keys| && keys[i] in steps && IsLost(steps[keys[i]].state)
    ensures text + Written(c, RecoveryLog(steps, keys[..i], worker))
      + Written(c, [RecoveryRecord(keys[i], steps[keys[i]].state, worker)])
         == text + Written(c, RecoveryLog(steps, keys[..i + 1], worker))
  {
    LogNext(c, steps, keys, i, worker);
  }

  lemma RecoverNext(c: Codec, before: Store, text: string, keys: seq<StepKey>, i: nat, worker: string,
                    s: Store, file: string, refenced: seq<Reclaim>, uncertain: seq<StepKey>,
                    refenced': seq<Reclaim>, uncertain': seq<StepKey>)
    requires i < |keys| && LostAt(before.steps, keys, i) && ClaimsHighest(s)
    requires Recovering(c, before, text, keys[..i], worker, s, file, refenced, uncertain)
    requires i < |keys| && keys[i] in before.steps ==>
      var state := before.steps[keys[i]].state;
      if state.ClaimedBy? then refenced' == refenced + [Reclaim(keys[i], state.epoch + 1)] && uncertain' == uncertain
      else refenced' == refenced && uncertain' == uncertain + [keys[i]]
    ensures keys[i] in before.steps && IsLost(before.steps[keys[i]].state)
    ensures var r := RecoveryRecord(keys[i], before.steps[keys[i]].state, worker);
      Recovering(c, before, text, keys[..i + 1], worker, Apply(s, r), file + Written(c, [r]), refenced', uncertain')
  {
    var r := RecoveryRecord(keys[i], before.steps[keys[i]].state, worker);
    SweptNext(before, s, keys[..i], keys[i], worker);
    assert keys[..i] + [keys[i]] == keys[..i + 1];
    assert Swept(before, Apply(s, r), keys[..i + 1]);
    ReportsNext(before.steps, keys, i);
    FileNext(c, before.steps, text, keys, i, worker);
  }

  lemma LogNext(c: Codec, steps: map<StepKey, StepView>, keys: seq<StepKey>, i: nat, worker: string)
    requires i < |keys| && keys[i] in steps && IsLost(steps[keys[i]].state)
    ensures keys[..i + 1][..i] == keys[..i]
    ensures Written(c, RecoveryLog(steps, keys[..i + 1], worker))
         == Written(c, RecoveryLog(steps, keys[..i], worker))
           + Written(c, [RecoveryRecord(keys[i], steps[keys[i]].state, worker)])
  {
    assert keys[..i + 1][..i] == keys[..i];
    WrittenConcatenates(c, RecoveryLog(steps, keys[..i], worker),
      [RecoveryRecord(keys[i], steps[keys[i]].state, worker)]);
  }

  lemma SweepDone(before: Store, s: Store)
    requires Swept(before, s, InKeyOrder(LostKeys(before.steps)))
    ensures s.steps == Recovered(before).steps && s.cancelledRuns == before.cancelledRuns
  {
    var keys := InKeyOrder(LostKeys(before.steps));
    forall key | key in before.steps ensures s.steps[key] == RecoverView(before.steps[key]) {
      assert SweptAt(before, s, keys, key);
      assert key in LostKeys(before.steps) <==> key in Elements(keys);
    }
  }

  /** Recovering the steps in `keys` one operation at a time. */
  ghost function OneByOne(s: Store, keys: seq<StepKey>, worker: string): Store {
    if keys == [] then s else After(OneByOne(s, keys[..|keys| - 1], worker), RecoverOne(keys[|keys| - 1], worker))
  }

  lemma {:induction false} OneByOneSweeps(s: Store, keys: seq<StepKey>, n: nat, worker: string)
    requires AllLostAt(s.steps, keys) && n <= |keys|
    ensures Swept(s, OneByOne(s, keys[..n], worker), keys[..n])
  {
    if n > 0 {
      OneByOneSweeps(s, keys, n - 1, worker);
      assert keys[..n][..n - 1] == keys[..n - 1] && keys[..n] == keys[..n - 1] + [keys[n - 1]];
      assert LostAt(s.steps, keys, n - 1);
      var before, after := OneByOne(s, keys[..n - 1], worker), OneByOne(s, keys[..n], worker);
      assert after == After(before, RecoverOne(keys[n - 1], worker));
      assert SweptAt(s, before, keys[..n - 1], keys[n - 1]);
      forall key ensures SweptAt(s, after, keys[..n], key) {
        assert SweptAt(s, before, keys[..n - 1], key);
      }
    }
  }

  /** A whole recovery is one recovery operation for each lost step, in key order. */
  lemma RecoveryIsOneByOne(s: Store, worker: string)
    ensures OneByOne(s, InKeyOrder(LostKeys(s.steps)), worker) == After(s, Op.RecoverLost(worker))
  {
    EachKeyIsLost(s.steps);
    OneByOneAll(s, InKeyOrder(LostKeys(s.steps)), worker);
    SweepDone(s, OneByOne(s, InKeyOrder(LostKeys(s.steps)), worker));
  }

  lemma OneByOneAll(s: Store, keys: seq<StepKey>, worker: string)
    requires AllLostAt(s.steps, keys)
    ensures Swept(s, OneByOne(s, keys, worker), keys)
  {
    OneByOneSweeps(s, keys, |keys|, worker);
    assert keys[..|keys|] == keys;
  }

  lemma LaunchThenSettle(s: Store, key: StepKey, epoch: Epoch, result: TerminalRecord)
    ensures After(After(s, Launch(key, epoch)), Settle(key, epoch, result)) ==
      if key in s.steps && !s.steps[key].state.Done? && epoch >= s.steps[key].highestEpoch
      then s.(steps := s.steps[key := s.steps[key].(state := Done(result))])
      else s
  {
    if key in s.steps {
      assert s.steps == s.steps[key := s.steps[key]];
    }
  }
}
