/** Runs of the durable host with any number of torn writes, and exactly which records outlive them. */
module TornRuns {
  import opened Collections
  import opened DurableLog
  import opened DurableProtocol
  import opened LogFile
  import opened Whitespace
  import opened DurableRestart

  /** A record of whose line the first `n` characters reached the file. */
  datatype Write = Write(record: Record, n: nat)

  function LineFor(c: Codec, r: Record): string {
    c.encode(r) + "\n"
  }

  function TextOf(c: Codec, w: Write): string {
    if w.n < |LineFor(c, w.record)| then LineFor(c, w.record)[..w.n] else LineFor(c, w.record)
  }

  function FileOf(c: Codec, writes: seq<Write>): string {
    if writes == [] then "" else FileOf(c, Earlier(writes)) + TextOf(c, Latest(writes))
  }

  function Earlier(writes: seq<Write>): seq<Write>
    requires writes != []
  {
    writes[..|writes| - 1]
  }

  function Latest(writes: seq<Write>): Write
    requires writes != []
  {
    writes[|writes| - 1]
  }

  /** What one write adds for good: a whole line, in a file that ended with one. */
  ghost function KeptBy(c: Codec, file: string, w: Write): seq<Record> {
    if Terminated(file) && TextOf(c, w) == LineFor(c, w.record) then [w.record] else []
  }

  /** The records of the writes that landed, in order. */
  ghost function Kept(c: Codec, writes: seq<Write>): seq<Record> {
    if writes == [] then []
    else Kept(c, Earlier(writes)) + KeptBy(c, FileOf(c, Earlier(writes)), Latest(writes))
  }

  /** A record written completely but for its line break, in a file that ended with a whole line, hangs on
      until the next write. */
  ghost function HangsAfter(c: Codec, file: string, w: Write, before: seq<Record>): seq<Record> {
    if TextOf(c, w) == "" then before
    else if Terminated(file) && TextOf(c, w) == c.encode(w.record) then [w.record]
    else []
  }

  /** The record, if any, that hangs on in the end. */
  ghost function Hanging(c: Codec, writes: seq<Write>): seq<Record> {
    if writes == [] then []
    else HangsAfter(c, FileOf(c, Earlier(writes)), Latest(writes), Hanging(c, Earlier(writes)))
  }

  // ---------------------------------------------------------------------------------------------
  // The file, piece by piece
  // ---------------------------------------------------------------------------------------------

  /** A file is whole lines, which read as `kept`, and then pieces of records glued together. */
  ghost predicate Shaped(c: Codec, file: string, whole: string, pieces: seq<string>, kept: seq<Record>) {
    && file == whole + Joined(pieces) && Terminated(whole) && Replay(c, whole) == kept
    && Pieces(c, pieces) && Clean(Joined(pieces))
  }

  lemma PieceIsClean(c: Codec, text: string)
    requires Sound(c) && Piece(c, text)
    ensures Clean(text) && text != ""
  {
    var r, n :| PieceOf(c, text, r, n);
    assert ReadsBack(c, r);
  }

  /** Only a file without such a rest is newline-terminated. */
  lemma RestIsUnterminated(c: Codec, file: string, whole: string, pieces: seq<string>, kept: seq<Record>)
    requires Sound(c) && Shaped(c, file, whole, pieces, kept)
    ensures Terminated(file) <==> pieces == []
  {
    if pieces == [] {
      assert file == whole;
    } else {
      var last := pieces[|pieces| - 1];
      PieceIsClean(c, last);
      assert file[|file| - 1] == last[|last| - 1];
    }
  }

  lemma MorePieces(c: Codec, pieces: seq<string>, piece: string)
    requires Sound(c) && Pieces(c, pieces) && Clean(Joined(pieces)) && Piece(c, piece)
    ensures Pieces(c, pieces + [piece]) && Clean(Joined(pieces + [piece]))
    ensures Joined(pieces + [piece]) == Joined(pieces) + piece
    ensures pieces != [] ==> Read(c, Joined(pieces + [piece])) == []
  {
    JoinedNext(pieces, piece);
    PieceIsClean(c, piece);
    assert NotGlued(c, pieces + [piece]);
  }

  lemma WholeIsPiece(c: Codec, r: Record, n: nat)
    requires Sound(c) && 0 < n <= |c.encode(r)|
    ensures Piece(c, c.encode(r)[..n])
    ensures Read(c, c.encode(r)[..n]) == if n == |c.encode(r)| then [r] else []
  {
    assert PieceOf(c, c.encode(r)[..n], r, n);
    assert ReadsBack(c, r) && NotCutShort(c, r, n);
    assert c.encode(r)[..|c.encode(r)|] == c.encode(r);
  }

  /** A whole line after whole lines is one record more. */
  lemma LineOnWhole(c: Codec, file: string, r: Record)
    requires Sound(c) && Terminated(file)
    ensures var after := file + (c.encode(r) + "\n");
      Terminated(after) && Replay(c, after) == Replay(c, file) + [r]
  {
    assert ReadsBack(c, r);
    ReplayConcatenates(c, file, c.encode(r) + "\n");
    ReplayLine(c, c.encode(r));
  }

  lemma UnreadLine(c: Codec, whole: string, line: string)
    requires Terminated(whole) && Clean(line) && Read(c, line) == []
    ensures Terminated(whole + (line + "\n")) && Replay(c, whole + (line + "\n")) == Replay(c, whole)
  {
    ReplayConcatenates(c, whole, line + "\n");
    ReplayLine(c, line);
  }

  lemma GluedLine(whole: string, rest: string, piece: string)
    ensures (whole + rest) + (piece + "\n") == whole + ((rest + piece) + "\n")
  {
  }

  /** After anything else it is lost. */
  lemma LineOnPieces(c: Codec, whole: string, pieces: seq<string>, r: Record)
    requires Sound(c) && Terminated(whole) && Pieces(c, pieces) && Clean(Joined(pieces)) && pieces != []
    ensures var after := whole + ((Joined(pieces) + c.encode(r)) + "\n");
      Terminated(after) && Replay(c, after) == Replay(c, whole)
  {
    WholeText(c, r);
    MorePieces(c, pieces, c.encode(r));
    UnreadLine(c, whole, Joined(pieces) + c.encode(r));
  }

  lemma WholeText(c: Codec, r: Record)
    requires Sound(c)
    ensures Piece(c, c.encode(r))
  {
    var text := c.encode(r);
    assert ReadsBack(c, r);
    assert text[..|text|] == text;
    assert PieceOf(c, text, r, |text|);
  }

  lemma LineWritten(c: Codec, file: string, whole: string, pieces: seq<string>, kept: seq<Record>, r: Record)
    requires Sound(c) && Shaped(c, file, whole, pieces, kept)
    ensures var after := file + LineFor(c, r);
      Terminated(after) && Replay(c, after) == if Terminated(file) then kept + [r] else kept
  {
    RestIsUnterminated(c, file, whole, pieces, kept);
    if pieces == [] {
      assert file == whole;
      LineOnWhole(c, file, r);
    } else {
      GluedLine(whole, Joined(pieces), c.encode(r));
      LineOnPieces(c, whole, pieces, r);
    }
  }

  /** A piece of a line leaves the whole lines as they are. */
  lemma PieceWritten(c: Codec, file: string, whole: string, pieces: seq<string>, kept: seq<Record>, r: Record, n: nat)
    requires Sound(c) && Shaped(c, file, whole, pieces, kept) && 0 < n <= |c.encode(r)|
    ensures Shaped(c, file + c.encode(r)[..n], whole, pieces + [c.encode(r)[..n]], kept)
    ensures Read(c, Joined(pieces + [c.encode(r)[..n]])) == if pieces == [] && n == |c.encode(r)| then [r] else []
  {
    var piece := c.encode(r)[..n];
    WholeIsPiece(c, r, n);
    MorePieces(c, pieces, piece);
    assert file + piece == whole + (Joined(pieces) + piece);
    if pieces == [] {
      assert Joined(pieces) + piece == piece;
    }
  }

  lemma ShapedReads(c: Codec, file: string, whole: string, pieces: seq<string>, kept: seq<Record>, hanging: seq<Record>)
    requires Sound(c) && Shaped(c, file, whole, pieces, kept) && Read(c, Joined(pieces)) == hanging
    ensures Replay(c, file) == kept + hanging
    ensures Terminated(file) ==> hanging == []
  {
    RestIsUnterminated(c, file, whole, pieces, kept);
    ReplayConcatenates(c, whole, Joined(pieces));
    ReplayLine(c, Joined(pieces));
  }

  // ---------------------------------------------------------------------------------------------
  // Write by write
  // ---------------------------------------------------------------------------------------------

  /** A file, its shape, and what hangs on at its end. */
  ghost predicate FiledAs(c: Codec, file: string, kept: seq<Record>, hanging: seq<Record>, whole: string,
                          pieces: seq<string>) {
    Shaped(c, file, whole, pieces, kept) && Read(c, Joined(pieces)) == hanging
  }

  ghost predicate Filed(c: Codec, file: string, kept: seq<Record>, hanging: seq<Record>) {
    exists whole, pieces :: FiledAs(c, file, kept, hanging, whole, pieces)
  }

  lemma WholeIsFiled(c: Codec, file: string)
    requires Terminated(file)
    ensures Filed(c, file, Replay(c, file), [])
  {
    assert file + "" == file;
    assert FiledAs(c, file, Replay(c, file), [], file, []);
  }

  lemma NextLine(c: Codec, file: string, kept: seq<Record>, hanging: seq<Record>, r: Record)
    requires Sound(c) && Filed(c, file, kept, hanging)
    ensures Filed(c, file + LineFor(c, r), if Terminated(file) then kept + [r] else kept, [])
  {
    var whole, pieces :| FiledAs(c, file, kept, hanging, whole, pieces);
    LineWritten(c, file, whole, pieces, kept, r);
    WholeIsFiled(c, file + LineFor(c, r));
  }

  lemma NextPiece(c: Codec, file: string, kept: seq<Record>, hanging: seq<Record>, r: Record, n: nat)
    requires Sound(c) && Filed(c, file, kept, hanging) && 0 < n <= |c.encode(r)|
    ensures Filed(c, file + c.encode(r)[..n], kept, if Terminated(file) && n == |c.encode(r)| then [r] else [])
  {
    var whole, pieces :| FiledAs(c, file, kept, hanging, whole, pieces);
    RestIsUnterminated(c, file, whole, pieces, kept);
    PieceWritten(c, file, whole, pieces, kept, r, n);
    var hangs := if Terminated(file) && n == |c.encode(r)| then [r] else [];
    assert FiledAs(c, file + c.encode(r)[..n], kept, hangs, whole, pieces + [c.encode(r)[..n]]);
  }

  lemma TextIs(c: Codec, w: Write)
    ensures TextOf(c, w) == "" <==> w.n == 0
    ensures TextOf(c, w) == LineFor(c, w.record) <==> w.n > |c.encode(w.record)|
    ensures 0 < w.n <= |c.encode(w.record)| ==> TextOf(c, w) == c.encode(w.record)[..w.n]
    ensures TextOf(c, w) == c.encode(w.record) <==> w.n == |c.encode(w.record)|
  {
    assert |LineFor(c, w.record)| == |c.encode(w.record)| + 1;
    assert w.n >= 0;
  }

  lemma NextWrite(c: Codec, file: string, kept: seq<Record>, hanging: seq<Record>, w: Write)
    requires Sound(c) && Filed(c, file, kept, hanging)
    ensures Filed(c, file + TextOf(c, w), kept + KeptBy(c, file, w), HangsAfter(c, file, w, hanging))
  {
    TextIs(c, w);
    assert kept + [] == kept;
    if w.n == 0 {
      assert file + TextOf(c, w) == file;
    } else if w.n > |c.encode(w.record)| {
      NextLine(c, file, kept, hanging, w.record);
    } else {
      NextPiece(c, file, kept, hanging, w.record, w.n);
    }
  }

  lemma {:induction false} EveryFile(c: Codec, writes: seq<Write>)
    requires Sound(c)
    ensures Filed(c, FileOf(c, writes), Kept(c, writes), Hanging(c, writes))
  {
    if writes == [] {
      WholeIsFiled(c, "");
    } else {
      EveryFile(c, Earlier(writes));
      NextWrite(c, FileOf(c, Earlier(writes)), Kept(c, Earlier(writes)), Hanging(c, Earlier(writes)), Latest(writes));
    }
  }

  /** With any number of torn writes, what a file replays is exactly the records of the writes that
      landed, and at most one more: a last record that lacks only its line break. */
  lemma ReplayOfWrites(c: Codec, writes: seq<Write>)
    requires Sound(c)
    ensures Replay(c, FileOf(c, writes)) == Kept(c, writes) + Hanging(c, writes)
    ensures Terminated(FileOf(c, writes)) ==> Hanging(c, writes) == []
  {
    var file, kept, hanging := FileOf(c, writes), Kept(c, writes), Hanging(c, writes);
    EveryFile(c, writes);
    var whole, pieces :| FiledAs(c, file, kept, hanging, whole, pieces);
    ShapedReads(c, file, whole, pieces, kept, hanging);
  }

  // ---------------------------------------------------------------------------------------------
  // Runs of the host
  // ---------------------------------------------------------------------------------------------

  /** The write, if any, that an event makes. */
  function WriteOf(c: Codec, h: Host, e: Event): seq<Write> {
    if e.Restart? || Records(h.store, e.op) == [] then []
    else
      var r := Records(h.store, e.op)[0];
      [Write(r, if e.Torn? then e.n else |LineFor(c, r)|)]
  }

  function Writes(c: Codec, hosts: seq<Host>, events: seq<Event>, n: nat): seq<Write>
    requires n <= |events| < |hosts|
  {
    if n == 0 then [] else Writes(c, hosts, events, n - 1) + WriteOf(c, hosts[n - 1], events[n - 1])
  }

  lemma LineOf(c: Codec, s: Store, op: Op)
    ensures |Records(s, op)| <= 1
    ensures Line(c, s, op) == if Records(s, op) == [] then "" else LineFor(c, Records(s, op)[0])
  {
    var log := Records(s, op);
    assert |log| == 1 ==> Written(c, log) == c.encode(log[0]) + "\n" + Written(c, log[1..]) && log[1..] == [];
  }

  lemma FileGrows(c: Codec, h: Host, e: Event)
    requires Possible(c, h, e)
    ensures Next(c, h, e).file == h.file + FileOf(c, WriteOf(c, h, e))
  {
    assert h.file + "" == h.file;
    if !e.Restart? {
      LineOf(c, h.store, e.op);
      var writes := WriteOf(c, h, e);
      if writes != [] {
        assert Earlier(writes) == [];
        assert FileOf(c, writes) == TextOf(c, writes[0]);
      }
    }
  }

  lemma FileAppends(c: Codec, writes: seq<Write>, more: seq<Write>)
    requires |more| <= 1
    ensures FileOf(c, writes + more) == FileOf(c, writes) + FileOf(c, more)
  {
    if more == [] {
      assert writes + more == writes;
    } else {
      assert Earlier(writes + more) == writes && Earlier(more) == [];
      assert FileOf(c, more) == TextOf(c, more[0]);
    }
  }

  lemma FileStep(c: Codec, hosts: seq<Host>, events: seq<Event>, n: nat)
    requires HostRun(c, hosts, events) && n < |events|
    ensures hosts[n + 1].file == hosts[n].file + FileOf(c, WriteOf(c, hosts[n], events[n]))
  {
    assert HostStep(c, hosts, events, n);
    FileGrows(c, hosts[n], events[n]);
  }

  /** Every file of a run is what its writes made of it. */
  ghost predicate IsOfWrites(c: Codec, hosts: seq<Host>, events: seq<Event>, n: nat)
    requires n <= |events| < |hosts|
  {
    hosts[n].file == FileOf(c, Writes(c, hosts, events, n))
  }

  lemma WrittenNext(c: Codec, hosts: seq<Host>, events: seq<Event>, n: nat)
    requires HostRun(c, hosts, events) && n < |events| && IsOfWrites(c, hosts, events, n)
    ensures IsOfWrites(c, hosts, events, n + 1)
  {
    FileStep(c, hosts, events, n);
    FileAppends(c, Writes(c, hosts, events, n), WriteOf(c, hosts[n], events[n]));
  }

  lemma {:induction false} FileOfRun(c: Codec, hosts: seq<Host>, events: seq<Event>, n: nat)
    requires HostRun(c, hosts, events) && n <= |events|
    ensures IsOfWrites(c, hosts, events, n)
  {
    if n > 0 {
      FileOfRun(c, hosts, events, n - 1);
      WrittenNext(c, hosts, events, n - 1);
    }
  }

  /** What any process of a run finds, after whatever tears: what landed, and what hangs on. */
  lemma ReplayOfRun(c: Codec, hosts: seq<Host>, events: seq<Event>, n: nat)
    requires Sound(c) && HostRun(c, hosts, events) && n <= |events|
    ensures var writes := Writes(c, hosts, events, n);
      Replay(c, hosts[n].file) == Kept(c, writes) + Hanging(c, writes)
    ensures Terminated(hosts[n].file) ==> Hanging(c, Writes(c, hosts, events, n)) == []
    ensures n > 0 && !events[n - 1].Do? ==> hosts[n].store == FoldAll(Replay(c, hosts[n].file))
  {
    FileOfRun(c, hosts, events, n);
    ReplayOfWrites(c, Writes(c, hosts, events, n));
    assert n > 0 ==> HostStep(c, hosts, events, n - 1);
  }
}
