/** The log as text in a file: one record a line, torn tails, and what reopening rebuilds. */
module LogFile {
  import opened Collections
  import opened DurableLog
  import opened Whitespace

  /** How records are written as text. */
  datatype Codec = Codec(encode: Record -> string, decode: string -> Option<Record>)

  /** What the JSON encoding provides: a record reads back as itself; its text is not blank and
      contains no raw line break (section 7 of RFC 8259); a text cut short does not read; and
      neither do two or more texts, whole or cut short, glued together. */
  ghost predicate Sound(c: Codec) {
    && (forall r :: ReadsBack(c, r)) && (forall r, n :: NotCutShort(c, r, n))
    && (forall pieces :: NotGlued(c, pieces))
  }

  ghost predicate ReadsBack(c: Codec, r: Record) {
    c.decode(c.encode(r)) == Some(r) && Clean(c.encode(r)) && !Blank(c.encode(r))
  }

  ghost predicate NotCutShort(c: Codec, r: Record, n: int) {
    0 <= n < |c.encode(r)| ==> c.decode(c.encode(r)[..n]).None?
  }

  /** What a write may leave of a record's text: all of it or a beginning. */
  ghost predicate Piece(c: Codec, text: string) {
    exists r, n :: PieceOf(c, text, r, n)
  }

  ghost predicate PieceOf(c: Codec, text: string, r: Record, n: int) {
    0 < n <= |c.encode(r)| && text == c.encode(r)[..n]
  }

  ghost predicate Pieces(c: Codec, pieces: seq<string>) {
    forall i | 0 <= i < |pieces| :: Piece(c, pieces[i])
  }

  function Joined(pieces: seq<string>): string {
    if pieces == [] then "" else Joined(pieces[..|pieces| - 1]) + pieces[|pieces| - 1]
  }

  ghost predicate NotGlued(c: Codec, pieces: seq<string>) {
    |pieces| >= 2 && Pieces(c, pieces) ==> c.decode(Joined(pieces)).None?
  }

  ghost predicate Clean(text: string) {
    '\n' !in text && '\r' !in text
  }

  /** Position of the first line break, or the length when there is none. */
  function LineEnd(text: string): (n: nat)
    ensures n <= |text| && '\n' !in text[..n] && (n < |text| ==> text[n] == '\n')
  {
    if text == "" || text[0] == '\n' then 0
    else
      var n := LineEnd(text[1..]);
      assert text[..n + 1] == [text[0]] + text[1..][..n];
      n + 1
  }

  /** A terminated line loses a carriage return before its line break. */
  function DropReturn(line: string): string {
    if line != "" && line[|line| - 1] == '\r' then line[..|line| - 1] else line
  }

  /** Buffered lines: terminated ones, then whatever is left over if it is not empty. */
  function Lines(text: string): seq<string>
    decreases |text|
  {
    var n := LineEnd(text);
    if text == "" then []
    else if n == |text| then [text]
    else [DropReturn(text[..n])] + Lines(text[n + 1..])
  }

  /** The records a line contributes: none when it is blank or does not read. */
  function Read(c: Codec, line: string): seq<Record> {
    if Blank(line) then []
    else match c.decode(line)
      case Some(r) => [r]
      case None => []
  }

  function ReadAll(c: Codec, lines: seq<string>): seq<Record> {
    if lines == [] then [] else Read(c, lines[0]) + ReadAll(c, lines[1..])
  }

  /** What reopening a file replays. */
  function Replay(c: Codec, text: string): seq<Record> {
    ReadAll(c, Lines(text))
  }

  function Written(c: Codec, log: seq<Record>): string {
    if log == [] then "" else c.encode(log[0]) + "\n" + Written(c, log[1..])
  }

  ghost predicate Terminated(text: string) {
    text == "" || text[|text| - 1] == '\n'
  }

  // ---------------------------------------------------------------------------------------------
  // Replaying what was written
  // ---------------------------------------------------------------------------------------------

  lemma {:induction false} LineEndBefore(line: string, rest: string)
    requires '\n' !in line
    ensures LineEnd(line + "\n" + rest) == |line| && LineEnd(line) == |line|
  {
    if line != "" {
      assert line[0] in line;
      assert (line + "\n" + rest)[1..] == line[1..] + "\n" + rest;
      LineEndBefore(line[1..], rest);
    }
  }

  lemma LinesOfTerminated(line: string, rest: string)
    requires Clean(line)
    ensures Lines(line + "\n" + rest) == [line] + Lines(rest)
    ensures Lines(line) == if line == "" then [] else [line]
  {
    LineEndBefore(line, rest);
    var text := line + "\n" + rest;
    assert text[..|line|] == line && text[|line| + 1..] == rest;
    assert line != "" ==> line[|line| - 1] in line;
  }

  /** Text after a terminated file is read on its own. */
  lemma {:induction false} LinesConcatenate(text: string, more: string)
    requires Terminated(text)
    ensures Lines(text + more) == Lines(text) + Lines(more)
    decreases |text|
  {
    if text == "" {
      assert text + more == more;
    } else {
      var n := LineEnd(text);
      var first, rest := DropReturn(text[..n]), text[n + 1..];
      FirstLine(text);
      FirstLineApart(text, n, more);
      LinesConcatenate(rest, more);
      Regroup([first], Lines(rest), Lines(more));
    }
  }

  lemma FirstLine(text: string)
    requires Terminated(text) && text != ""
    ensures var n := LineEnd(text);
      n < |text| && Terminated(text[n + 1..]) && Lines(text) == [DropReturn(text[..n])] + Lines(text[n + 1..])
  {
    var n := LineEnd(text);
    assert text[|text| - 1] in text;
    assert n + 1 < |text| ==> text[n + 1..][|text| - n - 2] == text[|text| - 1];
  }

  lemma Regroup<T>(a: seq<T>, b: seq<T>, c: seq<T>)
    ensures a + (b + c) == (a + b) + c
  {
  }

  lemma FirstLineApart(text: string, n: nat, more: string)
    requires n < |text| && n == LineEnd(text)
    ensures Lines(text + more) == [DropReturn(text[..n])] + Lines(text[n + 1..] + more)
  {
    LineEndBefore(text[..n], text[n + 1..] + more);
    assert text + more == text[..n] + "\n" + (text[n + 1..] + more);
    assert (text + more)[..n] == text[..n] && (text + more)[n + 1..] == text[n + 1..] + more;
  }

  lemma {:induction false} ReadAllConcatenates(c: Codec, a: seq<string>, b: seq<string>)
    ensures ReadAll(c, a + b) == ReadAll(c, a) + ReadAll(c, b)
  {
    if a == [] {
      assert a + b == b;
    } else {
      assert (a + b)[1..] == a[1..] + b;
      ReadAllConcatenates(c, a[1..], b);
    }
  }

  lemma ReplayConcatenates(c: Codec, text: string, more: string)
    requires Terminated(text)
    ensures Replay(c, text + more) == Replay(c, text) + Replay(c, more)
  {
    LinesConcatenate(text, more);
    ReadAllConcatenates(c, Lines(text), Lines(more));
  }

  lemma ReplayLine(c: Codec, line: string)
    requires Clean(line)
    ensures Replay(c, line + "\n") == Read(c, line)
    ensures Replay(c, line) == if line == "" then [] else Read(c, line)
  {
    LinesOfTerminated(line, "");
    assert line + "\n" + "" == line + "\n";
    assert ReadAll(c, [line]) == Read(c, line) + ReadAll(c, []);
  }

  lemma {:induction false} WrittenConcatenates(c: Codec, a: seq<Record>, b: seq<Record>)
    ensures Written(c, a + b) == Written(c, a) + Written(c, b)
  {
    if a == [] {
      assert a + b == b;
    } else {
      WrittenConcatenates(c, a[1..], b);
      assert (a + b)[1..] == a[1..] + b;
    }
  }

  lemma {:induction false} WrittenIsTerminated(c: Codec, log: seq<Record>)
    ensures Terminated(Written(c, log))
  {
    if log != [] {
      WrittenIsTerminated(c, log[1..]);
    }
  }

  lemma {:induction false} ReplayWritten(c: Codec, log: seq<Record>)
    requires Sound(c)
    ensures Replay(c, Written(c, log)) == log
  {
    if log != [] {
      var line := c.encode(log[0]);
      assert ReadsBack(c, log[0]);
      ReplayConcatenates(c, line + "\n", Written(c, log[1..]));
      ReplayLine(c, line);
      ReplayWritten(c, log[1..]);
      assert Read(c, line) == [log[0]];
      assert log == [log[0]] + log[1..];
    }
  }

  /** Onto a newline-terminated file, whatever it already holds, every appended record is replayed
      after what was there. */
  lemma ReplayAfterAppends(c: Codec, text: string, log: seq<Record>)
    requires Sound(c) && Terminated(text)
    ensures Replay(c, text + Written(c, log)) == Replay(c, text) + log
  {
    ReplayConcatenates(c, text, Written(c, log));
    ReplayWritten(c, log);
  }

  /** A last line torn at any point costs at most that line's record: it is lost exactly when the
      tear is inside the record's text, and kept when only the line break is missing. */
  lemma ReplayTorn(c: Codec, text: string, r: Record, n: nat)
    requires Sound(c) && Terminated(text) && n <= |c.encode(r)| + 1
    ensures Replay(c, text + (c.encode(r) + "\n")[..n]) == Replay(c, text) + if n < |c.encode(r)| then [] else [r]
  {
    var line := c.encode(r);
    var torn := (line + "\n")[..n];
    assert ReadsBack(c, r) && NotCutShort(c, r, n);
    ReplayConcatenates(c, text, torn);
    ReplayLine(c, line);
    if n <= |line| {
      assert torn == line[..n];
      ReplayLine(c, torn);
      assert n == |line| ==> torn == line;
    } else {
      assert torn == line + "\n";
    }
  }

  lemma JoinedNext(pieces: seq<string>, piece: string)
    ensures Joined(pieces + [piece]) == Joined(pieces) + piece
  {
    assert (pieces + [piece])[..|pieces|] == pieces;
  }

  lemma GluedUnread(c: Codec, r: Record, n: nat, next: Record)
    requires Sound(c)
    ensures 0 < n <= |c.encode(r)| ==> c.decode(c.encode(r)[..n] + c.encode(next)).None?
  {
    if 0 < n <= |c.encode(r)| {
      var first, second := c.encode(r)[..n], c.encode(next);
      assert ReadsBack(c, next) && second == second[..|second|];
      assert PieceOf(c, first, r, n) && PieceOf(c, second, next, |second|);
      JoinedNext([], first);
      JoinedNext([first], second);
      assert [] + [first] == [first] && Joined([]) + first == first;
      assert [first] + [second] == [first, second];
      assert NotGlued(c, [first, second]);
    }
  }

  /** An append made after a tear is glued to the torn line: it survives exactly when the torn
      fragment is empty or already carries its line break; otherwise both records are lost. */
  lemma AppendAfterTear(c: Codec, text: string, r: Record, n: nat, next: Record)
    requires Sound(c) && Terminated(text) && n <= |c.encode(r)| + 1
    ensures Replay(c, text + (c.encode(r) + "\n")[..n] + (c.encode(next) + "\n")) ==
      if n == 0 then Replay(c, text) + [next]
      else if n == |c.encode(r)| + 1 then Replay(c, text) + [r, next]
      else Replay(c, text)
  {
    var line, following := c.encode(r), c.encode(next);
    assert ReadsBack(c, r) && ReadsBack(c, next);
    GluedUnread(c, r, n, next);
    var torn := (line + "\n")[..n];
    if 0 < n <= |line| {
      assert torn == line[..n];
      var glued := torn + following;
      assert text + torn + (following + "\n") == text + (glued + "\n");
      assert Clean(glued);
      ReplayConcatenates(c, text, glued + "\n");
      ReplayLine(c, glued);
    } else {
      var records := if n == 0 then [next] else [r, next];
      assert torn == if n == 0 then "" else line + "\n";
      assert text + torn + (following + "\n") == text + Written(c, records) by {
        assert Written(c, [next]) == following + "\n" + Written(c, []);
        assert n > 0 ==> Written(c, records) == line + "\n" + Written(c, [next]);
      }
      ReplayAfterAppends(c, text, records);
    }
  }
}
