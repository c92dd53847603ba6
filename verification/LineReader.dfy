/** The laptop's line protocol: bytes from USB, in chunks of any size, cut into command lines. */
module LineReader {
  import opened Bits

  const LINE_SIZE := 64
  const LF: uint8 := 10
  const CR: uint8 := 13

  datatype Outcome = Line(text: Bytes) | TooLong

  predicate Ends(b: uint8) {
    b == LF || b == CR
  }

  // ---------------------------------------------------------------------------
  // The splitter
  // ---------------------------------------------------------------------------

  /** What follows the last terminator. */
  function Rest(stream: Bytes): Bytes {
    if stream == [] || Ends(stream[|stream| - 1]) then []
    else Rest(stream[..|stream| - 1]) + [stream[|stream| - 1]]
  }

  /** The pieces closed by a terminator, each with the terminator that closed it. */
  function Pieces(stream: Bytes): seq<(Bytes, uint8)> {
    if stream == [] then []
    else
      var before, last := stream[..|stream| - 1], stream[|stream| - 1];
      if Ends(last) then Pieces(before) + [(Rest(before), last)] else Pieces(before)
  }

  function Glue(pieces: seq<(Bytes, uint8)>): Bytes {
    if pieces == [] then []
    else
      var n := |pieces| - 1;
      Glue(pieces[..n]) + pieces[n].0 + [pieces[n].1]
  }

  /** Free of line feeds and carriage returns. */
  predicate Plain(text: Bytes) {
    forall b :: b in text ==> b != 10 && b != 13
  }

  /** The pieces and the rest are the stream, cut at every terminator and nowhere else. */
  lemma {:induction false} PiecesAreTheStream(stream: Bytes)
    ensures Glue(Pieces(stream)) + Rest(stream) == stream && Plain(Rest(stream))
    ensures forall k :: 0 <= k < |Pieces(stream)| ==> Plain(Pieces(stream)[k].0) && Pieces(stream)[k].1 in {10, 13}
  {
    if stream != [] {
      var before, last := stream[..|stream| - 1], stream[|stream| - 1];
      PiecesAreTheStream(before);
      assert stream == before + [last];
      if Ends(last) {
        assert Pieces(stream)[..|Pieces(before)|] == Pieces(before);
      }
    }
  }

  /** Empty pieces are dropped, pieces that fill the buffer are errors, the others are lines. */
  function Judge(text: Bytes): seq<Outcome> {
    if text == [] then [] else if |text| < LINE_SIZE then [Line(text)] else [TooLong]
  }

  function JudgeAll(pieces: seq<(Bytes, uint8)>): seq<Outcome> {
    if pieces == [] then [] else JudgeAll(pieces[..|pieces| - 1]) + Judge(pieces[|pieces| - 1].0)
  }

  function Outcomes(stream: Bytes): seq<Outcome> {
    JudgeAll(Pieces(stream))
  }

  /** The pieces that are not empty. */
  function Texts(pieces: seq<(Bytes, uint8)>): seq<Bytes> {
    if pieces == [] then []
    else
      var n := |pieces| - 1;
      Texts(pieces[..n]) + if pieces[n].0 == [] then [] else [pieces[n].0]
  }

  /** One outcome for every piece that is not empty, in order: a line up to 63 bytes, an error from 64 on. */
  ghost predicate Judged(outcomes: seq<Outcome>, texts: seq<Bytes>) {
    |outcomes| == |texts| &&
    forall k :: 0 <= k < |outcomes| ==> outcomes[k] == if |texts[k]| <= 63 then Line(texts[k]) else TooLong
  }

  lemma {:induction false} PiecesJudged(pieces: seq<(Bytes, uint8)>)
    ensures Judged(JudgeAll(pieces), Texts(pieces))
    ensures forall k :: 0 <= k < |Texts(pieces)| ==> |Texts(pieces)[k]| >= 1
  {
    if pieces != [] {
      PiecesJudged(pieces[..|pieces| - 1]);
    }
  }

  function Lines(outcomes: seq<Outcome>): seq<Bytes> {
    if outcomes == [] then []
    else
      var n := |outcomes| - 1;
      Lines(outcomes[..n]) + if outcomes[n].Line? then [outcomes[n].text] else []
  }

  function Errors(outcomes: seq<Outcome>): nat {
    if outcomes == [] then 0
    else Errors(outcomes[..|outcomes| - 1]) + if outcomes[|outcomes| - 1].TooLong? then 1 else 0
  }

  /** The pieces of at least lo bytes and at most hi. */
  function Sized(pieces: seq<(Bytes, uint8)>, lo: nat, hi: nat): seq<Bytes> {
    if pieces == [] then []
    else
      var n := |pieces| - 1;
      Sized(pieces[..n], lo, hi) + if lo <= |pieces[n].0| <= hi then [pieces[n].0] else []
  }

  function CountFrom(pieces: seq<(Bytes, uint8)>, lo: nat): nat {
    if pieces == [] then 0
    else CountFrom(pieces[..|pieces| - 1], lo) + if |pieces[|pieces| - 1].0| >= lo then 1 else 0
  }

  lemma OneOutcome(outcomes: seq<Outcome>, o: Outcome)
    ensures Lines(outcomes + [o]) == Lines(outcomes) + if o.Line? then [o.text] else []
    ensures Errors(outcomes + [o]) == Errors(outcomes) + if o.TooLong? then 1 else 0
  {
    assert (outcomes + [o])[..|outcomes|] == outcomes;
  }

  lemma {:induction false} PiecesSorted(pieces: seq<(Bytes, uint8)>)
    ensures Lines(JudgeAll(pieces)) == Sized(pieces, 1, 63) && Errors(JudgeAll(pieces)) == CountFrom(pieces, 64)
  {
    if pieces != [] {
      var n := |pieces| - 1;
      var before, judged := JudgeAll(pieces[..n]), Judge(pieces[n].0);
      PiecesSorted(pieces[..n]);
      if judged == [] {
        assert before + judged == before;
      } else {
        assert judged == [judged[0]];
        OneOutcome(before, judged[0]);
      }
    }
  }

  /**
   * For every stream: the lines passed on are the pieces of 1 to 63 bytes, in order, the errors are as many as the
   * pieces of 64 bytes or more, and each outcome comes where its piece does; an empty piece has none.
   */
  lemma LinesAndErrors(stream: Bytes)
    ensures Lines(Outcomes(stream)) == Sized(Pieces(stream), 1, 63)
    ensures Errors(Outcomes(stream)) == CountFrom(Pieces(stream), 64)
    ensures Judged(Outcomes(stream), Texts(Pieces(stream)))
  {
    PiecesSorted(Pieces(stream));
    PiecesJudged(Pieces(stream));
  }

  lemma OneByte(stream: Bytes, b: uint8)
    ensures Outcomes(stream + [b]) == Outcomes(stream) + if Ends(b) then Judge(Rest(stream)) else []
    ensures Rest(stream + [b]) == if Ends(b) then [] else Rest(stream) + [b]
  {
    assert (stream + [b])[..|stream|] == stream;
    if Ends(b) {
      assert Pieces(stream + [b])[..|Pieces(stream)|] == Pieces(stream);
    }
  }

  // ---------------------------------------------------------------------------
  // The reader
  // ---------------------------------------------------------------------------

  class Reader {
    const line: array<uint8>
    var lineLength: nat
    var overflow: bool
    /** Every byte ever read, and what has come of it. */
    ghost var consumed: Bytes
    var outcomes: seq<Outcome>

    ghost predicate Valid()
      reads this, line
    {
      && line.Length == LINE_SIZE && lineLength < LINE_SIZE
      && overflow == (|Rest(consumed)| >= LINE_SIZE)
      && (!overflow ==> line[..lineLength] == Rest(consumed))
      && outcomes == Outcomes(consumed)
    }

    constructor ()
      ensures Valid() && fresh(line) && consumed == [] && outcomes == []
    {
      line := new uint8[LINE_SIZE];
      lineLength, overflow, consumed, outcomes := 0, false, [], [];
    }

    /** One poll: the bytes at hand, however the stream happens to have been cut. */
    method PollUsbLines(chunk: Bytes)
      requires Valid()
      modifies this, line
      ensures Valid() && consumed == old(consumed) + chunk
    {
      for i := 0 to |chunk|
        invariant Valid() && consumed == old(consumed) + chunk[..i]
      {
        assert chunk[..i + 1] == chunk[..i] + [chunk[i]];
        TakeByte(chunk[i]);
        assert old(consumed) + chunk[..i] + [chunk[i]] == old(consumed) + chunk[..i + 1];
      }
      assert chunk[..|chunk|] == chunk;
    }

    /** The body of the read loop. The handler is free to rewrite the whole buffer. */
    method TakeByte(input: uint8)
      requires Valid()
      modifies this, line
      ensures Valid() && consumed == old(consumed) + [input]
    {
      OneByte(consumed, input);
      consumed := consumed + [input];
      if input == LF || input == CR {
        if overflow {
          outcomes := outcomes + [TooLong];
        } else if lineLength != 0 {
          line[lineLength] := 0;
          outcomes := outcomes + [Line(line[..lineLength])];
          modify line;
        }
        lineLength := 0;
        overflow := false;
      } else if overflow {
        return;
      } else if lineLength + 1 < LINE_SIZE {
        line[lineLength] := input;
        lineLength := lineLength + 1;
      } else {
        overflow := true;
      }
    }
  }

  /** However a stream is cut into chunks, the outcomes are those of the whole. */
  method ReadInChunks(chunks: seq<Bytes>) returns (outcomes: seq<Outcome>)
    ensures outcomes == Outcomes(Joined(chunks))
  {
    var reader := new Reader();
    for i := 0 to |chunks|
      invariant reader.Valid() && fresh(reader) && fresh(reader.line)
      invariant reader.consumed == Joined(chunks[..i])
    {
      reader.PollUsbLines(chunks[i]);
      assert chunks[..i + 1][..i] == chunks[..i];
    }
    assert chunks[..|chunks|] == chunks;
    outcomes := reader.outcomes;
  }

  function Joined(chunks: seq<Bytes>): Bytes {
    if chunks == [] then [] else Joined(chunks[..|chunks| - 1]) + chunks[|chunks| - 1]
  }
}
