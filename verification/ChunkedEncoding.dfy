/** The decoder inverts the encoding of section 7.1 of RFC 9112, exactly as long as no
    chunk size is written with more digits than the line buffer holds. */
module ChunkedEncoding {
  import opened Machine
  import opened ChunkedCoding

  const CRLF: seq<byte> := [CR, LF]

  /** A chunk as it is sent: the size in hexadecimal digits, leading zeros allowed, an
      extension, and the payload. */
  datatype Chunk = Chunk(digits: seq<byte>, extension: seq<byte>, data: seq<byte>)

  ghost predicate NoLineEnd(s: seq<byte>) {
    forall k | 0 <= k < |s| :: s[k] != CR && s[k] != LF
  }

  /** An extension follows a semicolon, which blanks may precede. */
  ghost predicate IsExtension(s: seq<byte>) {
    NoLineEnd(s) && (s != [] ==> s[0] == 59 || s[0] == 32 || s[0] == 9)
  }

  ghost predicate IsSize(digits: seq<byte>, size: nat) {
    digits != [] && AllHex(digits) && HexValue(digits) == size
  }

  ghost predicate WellFormed(chunk: Chunk) {
    && chunk.data != [] && |chunk.data| < U64_LIMIT
    && IsSize(chunk.digits, |chunk.data|) && IsExtension(chunk.extension)
  }

  function EncodeChunk(chunk: Chunk): seq<byte> {
    (chunk.digits + chunk.extension + CRLF) + (chunk.data + CRLF)
  }

  function EncodeAll(chunks: seq<Chunk>): seq<byte> {
    if chunks == [] then [] else EncodeChunk(chunks[0]) + EncodeAll(chunks[1..])
  }

  function Decoded(chunks: seq<Chunk>): seq<byte> {
    if chunks == [] then [] else chunks[0].data + Decoded(chunks[1..])
  }

  // -------- the size line --------

  /** What the line buffer keeps. */
  function Kept(line: seq<byte>): seq<byte> {
    if |line| < LINE_SIZE then line else line[..LINE_SIZE - 1]
  }

  lemma {:induction false} FeedLine(d: Decoder, bytes: seq<byte>)
    requires Valid(d) && d.phase == SizeLine && !d.failed && NoLineEnd(bytes)
    ensures Feed(d, bytes) == d.(line := Kept(d.line + bytes))
    decreases |bytes|
  {
    if bytes == [] {
      assert d.line + bytes == d.line;
    } else {
      var next := Step(d, bytes[0]);
      KeptGrows(d.line, bytes[0], bytes[1..]);
      assert [bytes[0]] + bytes[1..] == bytes;
      FeedLine(next, bytes[1..]);
    }
  }

  lemma KeptGrows(line: seq<byte>, ch: byte, more: seq<byte>)
    requires |line| < LINE_SIZE
    ensures Kept((if |line| + 1 < LINE_SIZE then line + [ch] else line) + more) == Kept(line + ([ch] + more))
  {
    if |line| + 1 < LINE_SIZE {
      assert line + [ch] + more == line + ([ch] + more);
    }
  }

  lemma {:induction false} HexRunEnds(s: seq<byte>, n: nat)
    requires n <= |s| && AllHex(s[..n]) && (n < |s| ==> !IsHex(s[n]))
    ensures HexRun(s) == n
    decreases n
  {
    if n > 0 {
      assert s[..n][0] == s[0];
      assert s[1..][..n - 1] == s[..n][1..];
      HexRunEnds(s[1..], n - 1);
    }
  }

  /** The digits in front of something that is no digit are read as they are. */
  lemma StrtoullReadsDigits(digits: seq<byte>, rest: seq<byte>)
    requires digits != [] && AllHex(digits) && IsExtension(rest)
    ensures Strtoull(digits + rest) == Some(if HexValue(digits) > MAX_U64 then MAX_U64 else HexValue(digits))
  {
    var line := digits + rest;
    assert line[0] == digits[0] && IsHex(line[0]);
    assert |line| >= 2 ==> line[1] == if |digits| >= 2 then digits[1] else rest[0];
    assert SkipPrefix(SkipSign(SkipSpaces(line))) == line;
    assert line[..|digits|] == digits;
    HexRunEnds(line, |digits|);
  }

  /** The digits of a size line that the buffer keeps. */
  function KeptDigits(digits: seq<byte>): seq<byte> {
    if |digits| < LINE_SIZE then digits else digits[..LINE_SIZE - 1]
  }

  lemma KeptLine(digits: seq<byte>, extension: seq<byte>) returns (rest: seq<byte>)
    requires IsExtension(extension)
    ensures IsExtension(rest) && Kept(digits + extension) == KeptDigits(digits) + rest
  {
    rest := if |digits| >= LINE_SIZE then []
            else if |digits| + |extension| < LINE_SIZE then extension
            else extension[..LINE_SIZE - 1 - |digits|];
  }

  /** The size the decoder reads from a size line of any length. */
  function SizeRead(digits: seq<byte>): nat
    requires AllHex(digits)
  {
    var value := HexValue(KeptDigits(digits));
    if value > MAX_U64 then MAX_U64 else value
  }

  lemma ReadsTheKeptDigits(digits: seq<byte>, extension: seq<byte>)
    requires digits != [] && AllHex(digits) && IsExtension(extension)
    ensures Kept(digits + extension) != [] && Strtoull(Kept(digits + extension)) == Some(SizeRead(digits))
  {
    var rest := KeptLine(digits, extension);
    StrtoullReadsDigits(KeptDigits(digits), rest);
  }

  lemma FeedSizeLine(d: Decoder, digits: seq<byte>, extension: seq<byte>)
    requires Valid(d) && d.phase == SizeLine && !d.failed && d.line == []
    requires digits != [] && AllHex(digits) && IsExtension(extension)
    ensures Feed(d, digits + extension + CRLF)
         == if SizeRead(digits) == 0 then d.(complete := true, phase := Done)
            else d.(remaining := SizeRead(digits), phase := Payload)
  {
    var text := digits + extension;
    assert d.line + text == text;
    TextIsNoLineEnd(digits, extension);
    FeedLine(d, text);
    FeedConcat(d, text, CRLF);
    FeedCrlf(d.(line := Kept(text)));
    ReadsTheKeptDigits(digits, extension);
  }

  lemma NumberStartsWithDigit(line: seq<byte>)
    requires line != [] && !IsSpace(line[0]) && line[0] != 43 && line[0] != 45
    ensures Strtoull(line).Some? <==> IsHex(line[0])
  {
    assert SkipSign(SkipSpaces(line)) == line;
  }

  /** A size line without leading blanks and sign is refused exactly when it does not start
      with a digit; either way it leaves no output and an empty line behind. */
  lemma SizeLinesRefusedExactly(d: Decoder, line: seq<byte>)
    requires Valid(d) && d.phase == SizeLine && !d.failed && d.line == [] && NoLineEnd(line)
    requires line != [] && !IsSpace(line[0]) && line[0] != 43 && line[0] != 45
    ensures var after := Feed(d, line + CRLF);
            && (after.failed <==> !IsHex(line[0]))
            && after.output == d.output && after.line == []
            && (after.failed ==> after.phase == SizeLine && after.complete == d.complete)
  {
    FeedConcat(d, line, CRLF);
    FeedLine(d, line);
    assert [] + line == line;
    FeedCrlf(d.(line := Kept(line)));
    NumberStartsWithDigit(Kept(line));
  }

  lemma TextIsNoLineEnd(digits: seq<byte>, extension: seq<byte>)
    requires AllHex(digits) && IsExtension(extension)
    ensures NoLineEnd(digits + extension)
  {
  }

  lemma FeedCrlf(d: Decoder)
    requires d.phase == SizeLine && !d.failed
    ensures Feed(d, CRLF) == if d.line == [] then d else EndOfLine(d)
  {
    assert CRLF[1..] == [LF] && [LF][1..] == [];
    assert Step(d, CR) == d;
    assert Feed(d, CRLF) == Feed(d, [LF]);
    assert Feed(d, [LF]) == Feed(Step(d, LF), []);
  }

  // -------- how many digits the buffer holds --------

  function Power16(n: nat): nat {
    if n == 0 then 1 else 16 * Power16(n - 1)
  }

  lemma {:induction false} HexValueSplit(digits: seq<byte>, n: nat)
    requires AllHex(digits) && n <= |digits|
    ensures AllHex(digits[..n]) && AllHex(digits[n..])
    ensures HexValue(digits) == HexValue(digits[..n]) * Power16(|digits| - n) + HexValue(digits[n..])
    decreases |digits| - n
  {
    if n == |digits| {
      assert digits[..n] == digits;
    } else {
      var front, last := digits[..|digits| - 1], digits[|digits| - 1];
      HexValueSplit(front, n);
      assert front[..n] == digits[..n] && digits[n..][..|digits[n..]| - 1] == front[n..];
      MoveDigit(HexValue(digits[..n]), Power16(|front| - n), HexValue(front[n..]), HexDigit(last));
    }
  }

  lemma MoveDigit(high: nat, p: nat, low: nat, digit: nat)
    ensures (high * p + low) * 16 + digit == high * (16 * p) + (low * 16 + digit)
  {
  }

  lemma {:induction false} Power16Grows(n: nat)
    ensures Power16(n) >= 1 && (n > 0 ==> Power16(n) >= 16)
  {
    if n > 0 {
      Power16Grows(n - 1);
    }
  }

  /** A nonzero size that fits 64 bits is read right exactly when it is written with at most
      19 digits; the twentieth digit and those behind it are lost. Zero is always read. */
  lemma SizeReadRight(digits: seq<byte>, size: nat)
    requires IsSize(digits, size) && size < U64_LIMIT
    ensures SizeRead(digits) == size <==> |digits| < LINE_SIZE || size == 0
  {
    if |digits| >= LINE_SIZE {
      var n := LINE_SIZE - 1;
      HexValueSplit(digits, n);
      Power16Grows(|digits| - n);
      ProductGrows(HexValue(digits[..n]), Power16(|digits| - n));
    }
  }

  lemma ProductGrows(a: nat, p: nat)
    requires p >= 16
    ensures a * p >= 16 * a
  {
  }

  // -------- the round trip --------

  lemma FeedChunk(d: Decoder, chunk: Chunk)
    requires Valid(d) && d.phase == SizeLine && !d.failed && d.line == []
    requires WellFormed(chunk) && |chunk.digits| < LINE_SIZE
    ensures Feed(d, EncodeChunk(chunk)) == d.(output := d.output + chunk.data)
  {
    var header := chunk.digits + chunk.extension + CRLF;
    var open := d.(remaining := |chunk.data|, phase := Payload);
    SizeReadRight(chunk.digits, |chunk.data|);
    FeedSizeLine(d, chunk.digits, chunk.extension);
    FeedConcat(d, header, chunk.data + CRLF);
    FeedWholePayload(open, chunk.data);
  }

  lemma FeedWholePayload(d: Decoder, data: seq<byte>)
    requires Valid(d) && d.phase == Payload && !d.failed && d.line == [] && d.remaining == |data|
    ensures Feed(d, data + CRLF) == d.(output := d.output + data, remaining := 0, phase := SizeLine)
  {
    FeedPayload(d, data);
    FeedConcat(d, data, CRLF);
    FeedCrlf(Feed(d, data));
  }

  lemma {:induction false} FeedChunks(d: Decoder, chunks: seq<Chunk>)
    requires Valid(d) && d.phase == SizeLine && !d.failed && d.line == []
    requires forall chunk | chunk in chunks :: WellFormed(chunk) && |chunk.digits| < LINE_SIZE
    ensures Feed(d, EncodeAll(chunks)) == d.(output := d.output + Decoded(chunks))
    decreases |chunks|
  {
    if chunks == [] {
      assert d.output + [] == d.output;
    } else {
      FeedChunk(d, chunks[0]);
      FeedConcat(d, EncodeChunk(chunks[0]), EncodeAll(chunks[1..]));
      var next := d.(output := d.output + chunks[0].data);
      FeedChunks(next, chunks[1..]);
      assert d.output + chunks[0].data + Decoded(chunks[1..]) == d.output + (chunks[0].data + Decoded(chunks[1..]));
    }
  }

  /** Decoding inverts encoding: any list of non-empty chunks whose sizes have at most 19
      digits, any extensions, any last chunk and any trailers, cut into any pieces. */
  lemma DecodingInvertsEncoding(chunks: seq<Chunk>, zeros: seq<byte>, extension: seq<byte>, trailers: seq<byte>,
                                pieces: seq<seq<byte>>)
    requires forall chunk | chunk in chunks :: WellFormed(chunk) && |chunk.digits| < LINE_SIZE
    requires IsSize(zeros, 0) && IsExtension(extension)
    requires Flatten(pieces) == EncodeAll(chunks) + ((zeros + extension + CRLF) + trailers)
    ensures FeedAll(FRESH, pieces) == Decoder(Done, [], 0, true, false, Decoded(chunks))
  {
    var last := zeros + extension + CRLF;
    PartitionsAgree(FRESH, pieces);
    FeedConcat(FRESH, EncodeAll(chunks), last + trailers);
    FeedChunks(FRESH, chunks);
    assert [] + Decoded(chunks) == Decoded(chunks);
    var body := FRESH.(output := Decoded(chunks));
    FeedConcat(body, last, trailers);
    SizeReadRight(zeros, 0);
    FeedSizeLine(body, zeros, extension);
    FeedAfterEnd(body.(complete := true, phase := Done), trailers);
  }

  /** Not so with more digits: a chunk of one byte whose size is written with nineteen
      leading zeros ends the body, and the byte is lost. */
  lemma LongSizesEndTheBody()
    ensures var chunk := Chunk(seq(19, _ => 48) + [49], [], [7]);
            && WellFormed(chunk)
            && Feed(FRESH, EncodeChunk(chunk)) == Decoder(Done, [], 0, true, false, [])
  {
    var zeros: seq<byte> := seq(19, _ => 48);
    var digits := zeros + [49];
    ZerosAreZero(19);
    assert digits[..19] == zeros;
    assert HexValue(digits) == 1;
    var chunk := Chunk(digits, [], [7]);
    FeedSizeLine(FRESH, digits, []);
    FeedConcat(FRESH, digits + [] + CRLF, [7] + CRLF);
    FeedAfterEnd(FRESH.(complete := true, phase := Done), [7] + CRLF);
  }

  lemma {:induction false} ZerosAreZero(n: nat)
    ensures AllHex(seq(n, _ => 48)) && HexValue(seq(n, _ => 48)) == 0
  {
    if n > 0 {
      var zeros: seq<byte> := seq(n, _ => 48);
      ZerosAreZero(n - 1);
      assert zeros[..n - 1] == seq(n - 1, _ => 48);
    }
  }
}
