/** The laws asked of a codec can be met: here is one, in unary, so nothing proved from them is empty. */
module CodecExists {
  import opened Collections
  import opened DurableLog
  import opened LogFile
  import opened Whitespace

  function Codes(s: string): seq<nat> {
    seq(|s|, i requires 0 <= i < |s| => s[i] as int)
  }

  function Numbers(s: seq<Byte>): seq<nat> {
    seq(|s|, i requires 0 <= i < |s| => s[i])
  }

  function ResultFields(result: TerminalRecord): seq<seq<nat>> {
    match result
    case Succeeded(output) => [[0], Numbers(output)]
    case Failed(kind, message) => [[1], Codes(kind), Codes(message)]
  }

  function DecisionFields(decision: Reconciliation): seq<seq<nat>> {
    match decision
    case AdoptCompleted(output) => [[0], Numbers(output)]
    case ProvedNoEffects => [[1]]
    case Abandoned(note) => [[2], Codes(note)]
  }

  function Fields(r: Record): seq<seq<nat>> {
    match r
    case Frozen(key, workflowId, version, fingerprint, notAfter) =>
      [[0], Codes(key.runId), Codes(key.stepId), Codes(workflowId), Codes(version), Codes(fingerprint),
       if notAfter.Some? then [notAfter.value] else []]
    case Claimed(key, epoch, worker) => [[1], Codes(key.runId), Codes(key.stepId), [epoch], Codes(worker)]
    case Launched(key, epoch) => [[2], Codes(key.runId), Codes(key.stepId), [epoch]]
    case Settled(key, epoch, result) => [[3], Codes(key.runId), Codes(key.stepId), [epoch]] + ResultFields(result)
    case Uncertain(key, epoch, reason) => [[4], Codes(key.runId), Codes(key.stepId), [epoch], Codes(reason)]
    case Reconciled(key, decision, author) => [[5], Codes(key.runId), Codes(key.stepId), Codes(author)]
      + DecisionFields(decision)
    case CancelRequested(runId, reason) => [[6], Codes(runId), Codes(reason)]
  }

  function Flat(fields: seq<seq<nat>>): seq<nat> {
    if fields == [] then [] else [|fields[0]|] + fields[0] + Flat(fields[1..])
  }

  function Ones(n: nat): string {
    seq(n, _ => '1')
  }

  function Text(words: seq<nat>): string {
    if words == [] then "" else Ones(words[0]) + "," + Text(words[1..])
  }

  function Encode(r: Record): string {
    "{" + Text(Flat(Fields(r))) + "}"
  }

  // ---------------------------------------------------------------------------------------------
  // Nothing is lost
  // ---------------------------------------------------------------------------------------------

  lemma CodesInjective(a: string, b: string)
    ensures Codes(a) == Codes(b) <==> a == b
  {
    if Codes(a) == Codes(b) {
      assert |a| == |Codes(a)| == |Codes(b)| == |b|;
      forall i | 0 <= i < |a| ensures a[i] == b[i] {
        assert Codes(a)[i] == Codes(b)[i];
      }
    }
  }

  lemma NumbersInjective(a: seq<Byte>, b: seq<Byte>)
    ensures Numbers(a) == Numbers(b) <==> a == b
  {
    if Numbers(a) == Numbers(b) {
      assert |a| == |Numbers(a)| == |Numbers(b)| == |b|;
      forall i | 0 <= i < |a| ensures a[i] == b[i] {
        assert Numbers(a)[i] == Numbers(b)[i];
      }
    }
  }

  lemma {:induction false} FlatInjective(a: seq<seq<nat>>, b: seq<seq<nat>>)
    requires Flat(a) == Flat(b)
    ensures a == b
  {
    if a != [] && b != [] {
      var n, s := |a[0]|, Flat(a);
      assert s[0] == n && Flat(b)[0] == |b[0]|;
      assert s[1..n + 1] == a[0] && Flat(b)[1..n + 1] == b[0];
      assert s[n + 1..] == Flat(a[1..]) && Flat(b)[n + 1..] == Flat(b[1..]);
      FlatInjective(a[1..], b[1..]);
      assert a == [a[0]] + a[1..] && b == [b[0]] + b[1..];
    }
  }

  lemma OnesInjective(n: nat, x: string, m: nat, y: string)
    requires Ones(n) + "," + x == Ones(m) + "," + y
    ensures n == m && x == y
  {
    var s, t := Ones(n) + "," + x, Ones(m) + "," + y;
    assert s[n] == ',' && t[m] == ',';
    assert forall i | 0 <= i < n :: s[i] == '1';
    assert forall i | 0 <= i < m :: t[i] == '1';
    assert s[n + 1..] == x && t[m + 1..] == y;
  }

  lemma {:induction false} TextInjective(a: seq<nat>, b: seq<nat>)
    requires Text(a) == Text(b)
    ensures a == b
  {
    if a != [] && b != [] {
      OnesInjective(a[0], Text(a[1..]), b[0], Text(b[1..]));
      TextInjective(a[1..], b[1..]);
      assert a == [a[0]] + a[1..] && b == [b[0]] + b[1..];
    }
  }

  lemma ResultInjective(a: TerminalRecord, b: TerminalRecord)
    requires ResultFields(a) == ResultFields(b)
    ensures a == b
  {
    assert ResultFields(a)[0][0] == ResultFields(b)[0][0];
    assert ResultFields(a)[1] == ResultFields(b)[1];
    match a {
      case Succeeded(output) => NumbersInjective(output, b.output);
      case Failed(kind, message) =>
        assert ResultFields(a)[2] == ResultFields(b)[2];
        CodesInjective(kind, b.kind);
        CodesInjective(message, b.message);
    }
  }

  lemma DecisionInjective(a: Reconciliation, b: Reconciliation)
    requires DecisionFields(a) == DecisionFields(b)
    ensures a == b
  {
    assert DecisionFields(a)[0][0] == DecisionFields(b)[0][0];
    match a {
      case AdoptCompleted(output) =>
        assert DecisionFields(a)[1] == DecisionFields(b)[1];
        NumbersInjective(output, b.output);
      case ProvedNoEffects =>
      case Abandoned(note) =>
        assert DecisionFields(a)[1] == DecisionFields(b)[1];
        CodesInjective(note, b.note);
    }
  }

  /** Fields in the same places are the same strings. */
  lemma SameAt(a: Record, b: Record, x: string, y: string, i: nat)
    requires Fields(a) == Fields(b) && i < |Fields(a)| && Fields(a)[i] == Codes(x) && Fields(b)[i] == Codes(y)
    ensures x == y
  {
    CodesInjective(x, y);
  }

  lemma FieldsInjective(a: Record, b: Record)
    requires Fields(a) == Fields(b)
    ensures a == b
  {
    var f, g := Fields(a), Fields(b);
    assert f[0][0] == g[0][0];
    match a {
      case Frozen(key, workflowId, version, fingerprint, notAfter) =>
        SameAt(a, b, key.runId, b.key.runId, 1);
        SameAt(a, b, key.stepId, b.key.stepId, 2);
        SameAt(a, b, workflowId, b.workflowId, 3);
        SameAt(a, b, version, b.workflowVersion, 4);
        SameAt(a, b, fingerprint, b.fingerprint, 5);
        assert f[6] == g[6];
      case CancelRequested(runId, reason) =>
        SameAt(a, b, runId, b.runId, 1);
        SameAt(a, b, reason, b.reason, 2);
      case Reconciled(key, decision, author) =>
        SameAt(a, b, key.runId, b.key.runId, 1);
        SameAt(a, b, key.stepId, b.key.stepId, 2);
        SameAt(a, b, author, b.author, 3);
        assert f[4..] == DecisionFields(decision) && g[4..] == DecisionFields(b.decision);
        DecisionInjective(decision, b.decision);
      case _ =>
        SameAt(a, b, a.key.runId, b.key.runId, 1);
        SameAt(a, b, a.key.stepId, b.key.stepId, 2);
        assert f[3][0] == g[3][0];
        EpochFieldsInjective(a, b);
    }
  }

  lemma EpochFieldsInjective(a: Record, b: Record)
    requires Fields(a) == Fields(b) && Fields(a)[0][0] in {1, 2, 3, 4}
    requires a.key == b.key && a.epoch == b.epoch
    ensures a == b
  {
    var f, g := Fields(a), Fields(b);
    assert f[0][0] == g[0][0];
    match a {
      case Claimed(_, _, worker) => SameAt(a, b, worker, b.worker, 4);
      case Launched(_, _) =>
      case Settled(_, _, result) =>
        assert f[4..] == ResultFields(result) && g[4..] == ResultFields(b.result);
        ResultInjective(result, b.result);
      case Uncertain(_, _, reason) => SameAt(a, b, reason, b.reason, 4);
    }
  }

  lemma EncodeInjective(a: Record, b: Record)
    requires Encode(a) == Encode(b)
    ensures a == b
  {
    var s, t := Text(Flat(Fields(a))), Text(Flat(Fields(b)));
    assert s == Encode(a)[1..|Encode(a)| - 1] && t == Encode(b)[1..|Encode(b)| - 1];
    TextInjective(Flat(Fields(a)), Flat(Fields(b)));
    FlatInjective(Fields(a), Fields(b));
    FieldsInjective(a, b);
  }

  // ---------------------------------------------------------------------------------------------
  // The laws
  // ---------------------------------------------------------------------------------------------

  lemma {:induction false} TextIsPlain(words: seq<nat>)
    ensures forall i | 0 <= i < |Text(words)| :: Text(words)[i] == '1' || Text(words)[i] == ','
  {
    if words != [] {
      TextIsPlain(words[1..]);
    }
  }

  /** An encoding opens with its only opening brace and closes with its only closing one. */
  lemma EncodingIsBracketed(r: Record)
    ensures var s := Encode(r);
      && |s| >= 2 && s[0] == '{' && s[|s| - 1] == '}'
      && forall i | 0 < i < |s| - 1 :: s[i] == '1' || s[i] == ','
  {
    TextIsPlain(Flat(Fields(r)));
  }

  ghost function Decode(text: string): Option<Record> {
    if exists r :: Encode(r) == text then
      var r :| Encode(r) == text;
      Some(r)
    else None
  }

  /** A codec with every law that the JSON encoding is relied on for. */
  lemma SoundCodecExists() returns (c: Codec)
    ensures Sound(c)
  {
    c := Codec(Encode, text => Decode(text));
    forall r ensures ReadsBack(c, r) {
      EncodingIsBracketed(r);
      DecodesBack(r);
      assert !White(c.encode(r)[0]);
    }
    forall r, n ensures NotCutShort(c, r, n) {
      if 0 <= n < |c.encode(r)| {
        CutShort(r, n);
      }
    }
    forall pieces ensures NotGlued(c, pieces) {
      if |pieces| >= 2 && Pieces(c, pieces) {
        Glued(c, pieces);
      }
    }
  }

  lemma DecodesBack(r: Record)
    ensures Decode(Encode(r)) == Some(r)
  {
    var d := Decode(Encode(r)).value;
    EncodeInjective(d, r);
  }

  lemma CutShort(r: Record, n: nat)
    requires n < |Encode(r)|
    ensures Decode(Encode(r)[..n]).None?
  {
    EncodingIsBracketed(r);
    forall q ensures Encode(q) != Encode(r)[..n] {
      EncodingIsBracketed(q);
    }
  }

  /** Any piece of an encoding begins with the opening brace. */
  lemma PieceOpens(c: Codec, text: string)
    requires c.encode == Encode && Piece(c, text)
    ensures text != "" && text[0] == '{'
  {
    var r, n :| PieceOf(c, text, r, n);
    EncodingIsBracketed(r);
  }

  /** An opening brace further on is not part of any encoding. */
  lemma NoBraceInside(s: string, k: nat)
    requires 0 < k < |s| && s[k] == '{'
    ensures Decode(s).None?
  {
    forall q ensures Encode(q) != s {
      EncodingIsBracketed(q);
    }
  }

  lemma Glued(c: Codec, pieces: seq<string>)
    requires c.encode == Encode && |pieces| >= 2 && Pieces(c, pieces)
    ensures Decode(Joined(pieces)).None?
  {
    var init, last := pieces[..|pieces| - 1], pieces[|pieces| - 1];
    PieceOpens(c, last);
    PieceOpens(c, init[|init| - 1]);
    assert Joined(init) == Joined(init[..|init| - 1]) + init[|init| - 1];
    NoBraceInside(Joined(init) + last, |Joined(init)|);
  }
}
