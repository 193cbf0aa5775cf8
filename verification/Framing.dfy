/**
 The line framing of the MCP server: a bounded line reader over buffered input, which discards
 oversized lines, against the plain splitting of the bytes at line feeds.
 */
module Framing {
  import opened Wrappers

  type Byte = b: nat | b < 256

  const LF: Byte := 10
  const MCP_MAX_LINE_BYTES: nat := 1024 * 1024

  // ---------------------------------------------------------------- splitting at line feeds

  /** The first line feed, or the length. */
  function FindLf(bs: seq<Byte>): (i: nat)
    ensures i <= |bs|
    ensures i < |bs| ==> bs[i] == LF
    ensures forall j :: 0 <= j < i ==> bs[j] != LF
  {
    if bs == [] || bs[0] == LF then 0
    else
      var i := FindLf(bs[1..]);
      assert forall j :: 1 <= j < i + 1 ==> bs[j] == bs[1..][j - 1];
      i + 1
  }

  /** How many bytes the first line takes, with its line feed. */
  function LineLength(bs: seq<Byte>): (n: nat)
    ensures n <= |bs| && (bs != [] ==> n > 0)
  {
    var i := FindLf(bs);
    if i < |bs| then i + 1 else |bs|
  }

  /** The pieces between line feeds, each with its own; only the last may lack one. */
  function Pieces(bs: seq<Byte>): (pieces: seq<seq<Byte>>)
    decreases |bs|
  {
    if bs == [] then []
    else
      var n := LineLength(bs);
      [bs[..n]] + Pieces(bs[n..])
  }

  function Flatten(pieces: seq<seq<Byte>>): seq<Byte> {
    if pieces == [] then [] else pieces[0] + Flatten(pieces[1..])
  }

  predicate IsPiece(p: seq<Byte>, last: bool) {
    p != [] && (forall j :: 0 <= j < |p| - 1 ==> p[j] != LF) && (!last ==> p[|p| - 1] == LF)
  }

  lemma {:induction false} FirstPieceAnd(p: seq<Byte>, rest: seq<seq<Byte>>)
    requires IsPiece(p, rest == [])
    requires forall i :: 0 <= i < |rest| ==> IsPiece(rest[i], i == |rest| - 1)
    ensures forall i :: 0 <= i < |[p] + rest| ==> IsPiece(([p] + rest)[i], i == |[p] + rest| - 1)
    ensures Flatten([p] + rest) == p + Flatten(rest)
  {
  }

  lemma {:induction false} LineIsPiece(bs: seq<Byte>)
    requires bs != []
    ensures IsPiece(bs[..LineLength(bs)], LineLength(bs) == |bs|)
  {
  }

  /** The pieces are the only way to cut the bytes after each line feed. */
  lemma {:induction false} PiecesCutAtLineFeeds(bs: seq<Byte>)
    ensures Flatten(Pieces(bs)) == bs
    ensures forall i :: 0 <= i < |Pieces(bs)| ==> IsPiece(Pieces(bs)[i], i == |Pieces(bs)| - 1)
    decreases |bs|
  {
    if bs != [] {
      var n := LineLength(bs);
      var rest := Pieces(bs[n..]);
      PiecesCutAtLineFeeds(bs[n..]);
      LineIsPiece(bs);
      assert n == |bs| <==> rest == [];
      FirstPieceAnd(bs[..n], rest);
      assert bs == bs[..n] + bs[n..];
    }
  }

  lemma {:induction false} CutIsUnique(bs: seq<Byte>, pieces: seq<seq<Byte>>)
    requires Flatten(pieces) == bs
    requires forall i :: 0 <= i < |pieces| ==> IsPiece(pieces[i], i == |pieces| - 1)
    ensures pieces == Pieces(bs)
    decreases |bs|
  {
    if pieces != [] {
      var rest := pieces[1..];
      assert IsPiece(pieces[0], |pieces| == 1);
      FirstLineIs(pieces[0], Flatten(rest), rest == []);
      forall i | 0 <= i < |rest|
        ensures IsPiece(rest[i], i == |rest| - 1)
      {
        assert rest[i] == pieces[i + 1];
      }
      CutIsUnique(Flatten(rest), rest);
      assert pieces == [pieces[0]] + rest;
    }
  }

  lemma {:induction false} FirstLineIs(p: seq<Byte>, rest: seq<Byte>, last: bool)
    requires IsPiece(p, last) && (last ==> rest == [])
    ensures var bs := p + rest;
      LineLength(bs) == |p| && bs[..|p|] == p && bs[|p|..] == rest
  {
  }

  // ---------------------------------------------------------------- UTF-8, section 4 of RFC 3629

  predicate Tail(b: Byte) {
    0x80 <= b <= 0xBF
  }

  /** The length of the well-formed sequence at the start, or 0. */
  function Utf8Sequence(bs: seq<Byte>): (n: nat)
    ensures n <= |bs|
  {
    if |bs| >= 1 && bs[0] <= 0x7F then 1
    else if |bs| >= 2 && 0xC2 <= bs[0] <= 0xDF && Tail(bs[1]) then 2
    else if |bs| >= 3 && Tail(bs[2])
         && ((bs[0] == 0xE0 && 0xA0 <= bs[1] <= 0xBF) || (0xE1 <= bs[0] <= 0xEC && Tail(bs[1]))
             || (bs[0] == 0xED && 0x80 <= bs[1] <= 0x9F) || (0xEE <= bs[0] <= 0xEF && Tail(bs[1]))) then 3
    else if |bs| >= 4 && Tail(bs[2]) && Tail(bs[3])
         && ((bs[0] == 0xF0 && 0x90 <= bs[1] <= 0xBF) || (0xF1 <= bs[0] <= 0xF3 && Tail(bs[1]))
             || (bs[0] == 0xF4 && 0x80 <= bs[1] <= 0x8F)) then 4
    else 0
  }

  predicate ValidUtf8(bs: seq<Byte>)
    decreases |bs|
  {
    bs == [] || (Utf8Sequence(bs) > 0 && ValidUtf8(bs[Utf8Sequence(bs)..]))
  }

  // ---------------------------------------------------------------- the reader

  datatype InputLine = Line(bytes: seq<Byte>) | InvalidUtf8 | TooLarge

  /** What a piece is reported as. */
  function Report(piece: seq<Byte>, max: nat): InputLine {
    if |piece| > max then TooLarge else if ValidUtf8(piece) then Line(piece) else InvalidUtf8
  }

  /** Buffered input: what is in the buffer, and the chunks still to come, cut anywhere. */
  class Reader {
    var buffer: seq<Byte>
    var chunks: seq<seq<Byte>>

    constructor (chunks: seq<seq<Byte>>)
      requires [] !in chunks
      ensures Valid() && Contents() == Flatten(chunks)
    {
      this.buffer, this.chunks := [], chunks;
      new;
      assert [] + Flatten(chunks) == Flatten(chunks);
    }

    predicate Valid()
      reads this
    {
      [] !in chunks
    }

    /** The bytes not yet consumed. */
    function Contents(): seq<Byte>
      reads this
    {
      buffer + Flatten(chunks)
    }

    method FillBuf() returns (available: seq<Byte>)
      requires Valid()
      modifies this
      ensures Valid() && Contents() == old(Contents()) && available == buffer
      ensures available == [] ==> Contents() == []
      ensures available <= Contents()
    {
      if buffer == [] && chunks != [] {
        assert chunks[0] != [];
        buffer, chunks := chunks[0], chunks[1..];
        assert [] + Flatten(old(chunks)) == old(Contents());
      }
      available := buffer;
    }

    method Consume(n: nat)
      requires Valid() && n <= |buffer|
      modifies this
      ensures Valid() && Contents() == old(Contents())[n..]
    {
      buffer := buffer[n..];
    }
  }

  /** A look at more bytes, when the first `k` hold no line feed. */
  lemma {:induction false} LookAhead(given: seq<Byte>, k: nat, available: seq<Byte>)
    requires k <= FindLf(given) && available <= given[k..]
    ensures k + |available| <= |given| && available == given[k..k + |available|]
    ensures FindLf(available) < |available| ==> FindLf(given) == k + FindLf(available)
    ensures FindLf(available) == |available| ==> FindLf(given) >= k + |available|
  {
  }

  /** What the reader still holds when the first `k` bytes are consumed. */
  ghost predicate Rest(reader: Reader, given: seq<Byte>, k: nat)
    reads reader
  {
    reader.Valid() && k <= |given| && reader.Contents() == given[k..]
  }

  lemma {:induction false} Grow(given: seq<Byte>, buffer: seq<Byte>, available: seq<Byte>, n: nat)
    requires |buffer| + |available| <= |given| && n <= |available|
    requires buffer == given[..|buffer|] && available == given[|buffer|..|buffer| + |available|]
    ensures buffer + available[..n] == given[..|buffer| + n]
    ensures buffer + available == given[..|buffer| + |available|]
  {
  }

  method FillAt(reader: Reader, ghost given: seq<Byte>, ghost k: nat) returns (available: seq<Byte>)
    requires Rest(reader, given, k) && k <= FindLf(given)
    modifies reader
    ensures Rest(reader, given, k) && available == reader.buffer
    ensures available == [] ==> k == |given|
    ensures k + |available| <= |given| && available == given[k..k + |available|]
    ensures FindLf(available) < |available| ==> FindLf(given) == k + FindLf(available)
    ensures FindLf(available) == |available| ==> FindLf(given) >= k + |available|
  {
    available := reader.FillBuf();
    LookAhead(given, k, available);
  }

  method ConsumeAt(reader: Reader, n: nat, ghost given: seq<Byte>, ghost k: nat)
    requires Rest(reader, given, k) && n <= |reader.buffer| && k + n <= |given|
    modifies reader
    ensures Rest(reader, given, k + n)
  {
    reader.Consume(n);
    assert given[k..][n..] == given[k + n..];
  }

  /** Skips to behind the next line feed of `given`, or to its end; the first `k` bytes are gone already. */
  method DiscardUntilNewline(reader: Reader, ghost given: seq<Byte>, ghost k0: nat)
    requires Rest(reader, given, k0) && k0 <= FindLf(given)
    modifies reader
    ensures Rest(reader, given, LineLength(given))
  {
    ghost var k := k0;
    while true
      invariant Rest(reader, given, k) && k <= FindLf(given)
      decreases |given| - k
    {
      var available := FillAt(reader, given, k);
      if available == [] {
        return;
      }
      var position := FindLf(available);
      var bytesToConsume := if position < |available| then position + 1 else |available|;
      var foundNewline := available[bytesToConsume - 1] == LF;
      ConsumeAt(reader, bytesToConsume, given, k);
      if foundNewline {
        return;
      }
      k := k + bytesToConsume;
    }
  }

  /**
   One call reads exactly the first line of the remaining bytes, however they are chunked, and reports
   it as too large iff it is longer than `max` with its line feed; `None` means there is nothing left.
   */
  method ReadInputLine(reader: Reader, max: nat) returns (input: Option<InputLine>)
    requires reader.Valid()
    modifies reader
    ensures reader.Valid()
    ensures
      var given := old(reader.Contents());
      var n := LineLength(given);
      && reader.Contents() == given[n..]
      && input == if given == [] then None else Some(Report(given[..n], max))
  {
    ghost var given := reader.Contents();
    assert given[0..] == given;
    var line := ReadLine(reader, max, given);
    match line {
      case End =>
        return None;
      case Overlong =>
        return Some(TooLarge);
      case Bytes(buffer) =>
        if ValidUtf8(buffer) {
          return Some(InputLine.Line(buffer));
        }
        return Some(InvalidUtf8);
    }
  }

  datatype RawLine = End | Overlong | Bytes(bytes: seq<Byte>)

  /** What the reading loop leaves of the first line of `given`. */
  function RawFirst(given: seq<Byte>, max: nat): RawLine {
    if given == [] then End
    else if LineLength(given) > max then Overlong
    else Bytes(given[..LineLength(given)])
  }

  /** Consumes `n` of the bytes in sight, which continue `buffer`. */
  method TakeAt(reader: Reader, n: nat, available: seq<Byte>, ghost buffer: seq<Byte>, ghost given: seq<Byte>)
    requires Rest(reader, given, |buffer|) && n <= |available| && available == reader.buffer
    requires |buffer| + |available| <= |given| && buffer == given[..|buffer|]
    requires available == given[|buffer|..|buffer| + |available|]
    modifies reader
    ensures Rest(reader, given, |buffer| + n)
    ensures buffer + available[..n] == given[..|buffer| + n]
  {
    ConsumeAt(reader, n, given, |buffer|);
    Grow(given, buffer, available, n);
  }

  /** The buffer holds what was read of the first line of `given`, within the bound. */
  ghost predicate Reading(reader: Reader, given: seq<Byte>, buffer: seq<Byte>, max: nat)
    reads reader
  {
    |buffer| <= FindLf(given) && buffer == given[..|buffer|] && |buffer| <= max && Rest(reader, given, |buffer|)
  }

  /** One pass of the reading loop: more bytes for the buffer, never beyond the bound, or the end of the line. */
  method ReadChunk(reader: Reader, max: nat, buffer0: seq<Byte>, ghost given: seq<Byte>)
    returns (buffer: seq<Byte>, line: Option<RawLine>)
    requires Reading(reader, given, buffer0, max)
    modifies reader
    ensures |buffer| <= max
    ensures line.Some? ==> Rest(reader, given, LineLength(given)) && line.value == RawFirst(given, max)
    ensures line.None? ==> Reading(reader, given, buffer, max) && |buffer0| < |buffer| <= |given|
  {
    buffer := buffer0;
    var available := FillAt(reader, given, |buffer|);
    if available == [] {
      return buffer, Some(if buffer == [] then End else Bytes(buffer));
    }
    var newlineIndex := FindLf(available);
    if newlineIndex < |available| {
      var bytesToConsume := newlineIndex + 1;
      TakeAt(reader, bytesToConsume, available, buffer, given);
      if |buffer| + bytesToConsume > max {
        return buffer, Some(Overlong);
      }
      buffer := buffer + available[..bytesToConsume];
      return buffer, Some(Bytes(buffer));
    }
    var bytesToConsume := |available|;
    TakeAt(reader, bytesToConsume, available, buffer, given);
    assert available[..bytesToConsume] == available;
    if |buffer| + bytesToConsume > max {
      DiscardUntilNewline(reader, given, |buffer| + bytesToConsume);
      return buffer, Some(Overlong);
    }
    buffer, line := buffer + available, None;
  }

  /** The reading loop: chunks go to the buffer until a line feed, the end, or one byte too many. */
  method ReadLine(reader: Reader, max: nat, ghost given: seq<Byte>) returns (line: RawLine)
    requires Rest(reader, given, 0)
    modifies reader
    ensures Rest(reader, given, LineLength(given)) && line == RawFirst(given, max)
  {
    var buffer: seq<Byte> := [];
    while true
      invariant Reading(reader, given, buffer, max)
      decreases |given| - |buffer|
    {
      var read;
      buffer, read := ReadChunk(reader, max, buffer, given);
      if read.Some? {
        return read.value;
      }
    }
  }
}
