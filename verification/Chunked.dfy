/** The incremental decoder of chunked transfer coding (section 7.1 of RFC 9112) in
    append_stream_chunked of src/download.c: a state machine over single bytes, the bulk
    code that must agree with it, and the encoding it inverts. */
module ChunkedCoding {
  import opened Machine

  const CR: byte := 13
  const LF: byte := 10
  const LINE_SIZE: nat := 20

  // -------- strtoull with base 16 --------

  predicate IsHex(b: byte) {
    48 <= b <= 57 || 65 <= b <= 70 || 97 <= b <= 102
  }

  function HexDigit(b: byte): nat
    requires IsHex(b)
  {
    if b <= 57 then b - 48 else if b <= 70 then b - 55 else b - 87
  }

  ghost predicate AllHex(s: seq<byte>) {
    forall k | 0 <= k < |s| :: IsHex(s[k])
  }

  /** The length of the longest prefix of hexadecimal digits. */
  function HexRun(s: seq<byte>): (n: nat)
    ensures n <= |s| && AllHex(s[..n])
    ensures n < |s| ==> !IsHex(s[n])
  {
    if s == [] || !IsHex(s[0]) then 0 else 1 + HexRun(s[1..])
  }

  function HexValue(digits: seq<byte>): nat
    requires AllHex(digits)
  {
    if digits == [] then 0 else HexValue(digits[..|digits| - 1]) * 16 + HexDigit(digits[|digits| - 1])
  }

  predicate IsSpace(b: byte) {
    b == 32 || 9 <= b <= 13
  }

  function SkipSpaces(s: seq<byte>): seq<byte> {
    if s != [] && IsSpace(s[0]) then SkipSpaces(s[1..]) else s
  }

  function SkipSign(s: seq<byte>): seq<byte> {
    if s != [] && (s[0] == 43 || s[0] == 45) then s[1..] else s
  }

  /** "0x" is a prefix only when a digit follows. */
  function SkipPrefix(s: seq<byte>): seq<byte> {
    if |s| >= 3 && s[0] == 48 && (s[1] == 120 || s[1] == 88) && IsHex(s[2]) then s[2..] else s
  }

  /** strtoull(s, &end, 16); none when no digit was found. */
  function Strtoull(s: seq<byte>): (size: Option<nat>)
    ensures size.Some? ==> size.value < U64_LIMIT
  {
    var unspaced := SkipSpaces(s);
    var negative := unspaced != [] && unspaced[0] == 45;
    var rest := SkipPrefix(SkipSign(unspaced));
    var n := HexRun(rest);
    if n == 0 then None
    else
      var value := HexValue(rest[..n]);
      if value > MAX_U64 then Some(MAX_U64)
      else if negative && value > 0 then Some(U64_LIMIT - value)
      else Some(value)
  }

  // -------- the decoder, one byte at a time --------

  datatype Phase = SizeLine | Payload | Done

  datatype Decoder = Decoder(
    phase: Phase,
    line: seq<byte>,
    remaining: nat,
    complete: bool,
    failed: bool,
    output: seq<byte>)

  const FRESH: Decoder := Decoder(SizeLine, [], 0, false, false, [])

  ghost predicate Valid(d: Decoder) {
    && |d.line| < LINE_SIZE && d.remaining < U64_LIMIT
    && (d.phase == Payload <==> d.remaining > 0)
  }

  function EndOfLine(d: Decoder): Decoder {
    match Strtoull(d.line)
    case None => d.(line := [], failed := true)
    case Some(size) =>
      if size == 0 then d.(line := [], complete := true, phase := Done)
      else d.(line := [], remaining := size, phase := Payload)
  }

  function Step(d: Decoder, ch: byte): Decoder {
    if d.failed then d
    else
      match d.phase
      case SizeLine =>
        if ch == LF then (if d.line == [] then d else EndOfLine(d))
        else if ch != CR && |d.line| + 1 < LINE_SIZE then d.(line := d.line + [ch])
        else d
      case Payload =>
        if d.remaining <= 1 then d.(output := d.output + [ch], remaining := 0, phase := SizeLine)
        else d.(output := d.output + [ch], remaining := d.remaining - 1)
      case Done => d
  }

  function Feed(d: Decoder, data: seq<byte>): Decoder
    decreases |data|
  {
    if data == [] then d else Feed(Step(d, data[0]), data[1..])
  }

  /** The 20-byte line buffer never overflows, for any input. */
  lemma {:induction false} FeedStaysValid(d: Decoder, data: seq<byte>)
    requires Valid(d)
    ensures Valid(Feed(d, data))
    decreases |data|
  {
    if data != [] {
      FeedStaysValid(Step(d, data[0]), data[1..]);
    }
  }

  /** Feeding in two pieces is feeding the whole. */
  lemma {:induction false} FeedConcat(d: Decoder, xs: seq<byte>, ys: seq<byte>)
    ensures Feed(d, xs + ys) == Feed(Feed(d, xs), ys)
    decreases |xs|
  {
    if xs == [] {
      assert xs + ys == ys;
    } else {
      assert (xs + ys)[1..] == xs[1..] + ys;
      FeedConcat(Step(d, xs[0]), xs[1..], ys);
    }
  }

  function Flatten(pieces: seq<seq<byte>>): seq<byte> {
    if pieces == [] then [] else pieces[0] + Flatten(pieces[1..])
  }

  function FeedAll(d: Decoder, pieces: seq<seq<byte>>): Decoder
    decreases |pieces|
  {
    if pieces == [] then d else FeedAll(Feed(d, pieces[0]), pieces[1..])
  }

  /** Split invariance: however the network cuts the stream, the decoder ends in the state
      and with the output of the whole stream. */
  lemma {:induction false} PartitionsAgree(d: Decoder, pieces: seq<seq<byte>>)
    ensures FeedAll(d, pieces) == Feed(d, Flatten(pieces))
    decreases |pieces|
  {
    if pieces != [] {
      FeedConcat(d, pieces[0], Flatten(pieces[1..]));
      PartitionsAgree(Feed(d, pieces[0]), pieces[1..]);
    }
  }

  /** After the last chunk, or an error, the rest of the input changes nothing. */
  lemma {:induction false} FeedAfterEnd(d: Decoder, data: seq<byte>)
    requires d.failed || d.phase == Done
    ensures Feed(d, data) == d
    decreases |data|
  {
    if data != [] {
      FeedAfterEnd(d, data[1..]);
    }
  }

  lemma {:induction false} FeedPayload(d: Decoder, data: seq<byte>)
    requires Valid(d) && d.phase == Payload && !d.failed && |data| <= d.remaining
    ensures Feed(d, data) == d.(output := d.output + data, remaining := d.remaining - |data|,
                                phase := if |data| == d.remaining then SizeLine else Payload)
    decreases |data|
  {
    if data == [] {
      assert d.output + data == d.output;
    } else {
      var next := Step(d, data[0]);
      assert d.output + [data[0]] + data[1..] == d.output + data;
      if |data| > 1 {
        FeedPayload(next, data[1..]);
      } else {
        assert Feed(next, data[1..]) == next;
      }
    }
  }

  // -------- the code --------

  class ChunkedDecoder {
    const accepts: nat -> bool   // what the stream answers to every write in turn
    var writes: nat              // how many were tried
    var phase: Phase
    const line: array<byte>
    var lineLen: nat
    var remaining: uint64
    var complete: bool
    var failed: bool
    var writeFailed: bool
    var output: seq<byte>

    ghost predicate Shape()
      reads this
    {
      && line.Length == LINE_SIZE && lineLen < LINE_SIZE
      && (writeFailed <==> exists k: nat :: k < writes && !accepts(k))
    }

    ghost function Abs(): Decoder
      reads this, line
      requires Shape()
    {
      Decoder(phase, line[..lineLen], remaining, complete, failed, output)
    }

    constructor (accepts: nat -> bool)
      ensures Shape() && Abs() == FRESH && !writeFailed && fresh(line) && this.accepts == accepts
    {
      this.accepts, writes := accepts, 0;
      line := new byte[LINE_SIZE];
      phase, lineLen, remaining := SizeLine, 0, 0;
      complete, failed, writeFailed, output := false, false, false, [];
    }

    /** append_stream. */
    method AppendStream(bytes: seq<byte>) returns (ok: bool)
      requires Shape()
      modifies this`output, this`failed, this`writeFailed, this`writes
      ensures Shape() && writes == old(writes) + 1 && ok == accepts(old(writes))
      ensures ok ==> output == old(output) + bytes && failed == old(failed) && writeFailed == old(writeFailed)
      ensures !ok ==> output == old(output) && failed && writeFailed
    {
      ok := accepts(writes);
      writes := writes + 1;
      if ok {
        output := output + bytes;
      } else {
        failed, writeFailed := true, true;
      }
    }

    /** The size branch: one byte of the size line. */
    method TakeLineByte(ch: byte)
      requires Shape() && Valid(Abs()) && phase == SizeLine && !failed
      modifies this, line
      ensures Shape() && writeFailed == old(writeFailed) && output == old(output)
      ensures Abs() == Step(old(Abs()), ch)
    {
      ghost var before := line[..lineLen];
      if ch == LF {
        if lineLen != 0 {
          var size := Strtoull(line[..lineLen]);
          lineLen := 0;
          if size.None? {
            failed := true;
          } else if size.value == 0 {
            complete := true;
            phase := Done;
          } else {
            remaining := size.value;
            phase := Payload;
          }
        }
      } else if ch != CR && lineLen + 1 < LINE_SIZE {
        line[lineLen] := ch;
        lineLen := lineLen + 1;
        assert line[..lineLen] == before + [ch];
      }
    }

    /** The payload branch: as many bytes as the chunk still has. */
    method TakePayload(data: seq<byte>) returns (take: nat, ok: bool)
      requires Shape() && Valid(Abs()) && phase == Payload && !failed && data != []
      modifies this
      ensures Shape() && 0 < take <= |data|
      ensures ok ==> Abs() == Feed(old(Abs()), data[..take]) && writeFailed == old(writeFailed) && !failed
      ensures !ok ==> Abs() == old(Abs()).(failed := true) && writeFailed
    {
      take := if |data| > remaining then remaining else |data|;
      FeedPayload(Abs(), data[..take]);
      ok := AppendStream(data[..take]);
      if !ok {
        return;
      }
      remaining := remaining - take;
      if remaining == 0 {
        phase := SizeLine;
      }
    }

    /** append_stream_chunked: the bulk code computes what the byte machine computes, up to the
        piece of payload whose write fails. */
    method AppendStreamChunked(data: seq<byte>) returns (ok: bool)
      requires Shape() && Valid(Abs()) && !failed && !writeFailed
      modifies this, line
      ensures Shape() && ok == !failed
      ensures !writeFailed ==> Abs() == Feed(old(Abs()), data) && Valid(Abs())
      ensures writeFailed ==> exists k :: 0 <= k < |data| && FailedAt(old(Abs()), data, k, Abs())
    {
      ghost var d := Abs();
      var at := 0;
      while at < |data|
        invariant at <= |data| && Shape() && Valid(Abs()) && !failed && !writeFailed
        invariant Abs() == Feed(d, data[..at])
        decreases |data| - at
      {
        match phase
        case SizeLine =>
          FeedMore(d, data, at, at + 1);
          StepStaysValid(Abs(), data[at]);
          TakeLineByte(data[at]);
          at := at + 1;
          if failed || phase == Done {
            FeedMore(d, data, at, |data|);
            FeedAfterEnd(Abs(), data[at..]);
            return !failed;
          }
        case Payload =>
          var take, taken := TakePayload(data[at..]);
          if !taken {
            assert FailedAt(d, data, at, Abs());
            return false;
          }
          FeedMore(d, data, at, at + take);
          FeedStaysValid(d, data[..at + take]);
          assert data[at..][..take] == data[at..at + take];
          at := at + take;
        case Done =>
          FeedMore(d, data, at, |data|);
          FeedAfterEnd(Abs(), data[at..]);
          return true;
      }
      assert data[..at] == data;
      ok := true;
    }
  }

  /** The write of the payload that starts at `data[k]` has failed. */
  ghost predicate FailedAt(d: Decoder, data: seq<byte>, k: nat, after: Decoder)
    requires k < |data|
  {
    var before := Feed(d, data[..k]);
    before.phase == Payload && !before.failed && after == before.(failed := true)
  }

  lemma FeedMore(d: Decoder, data: seq<byte>, at: nat, to: nat)
    requires at <= to <= |data|
    ensures Feed(d, data[..to]) == Feed(Feed(d, data[..at]), data[at..to])
    ensures to == |data| ==> data[..to] == data && data[at..to] == data[at..]
    ensures to == at + 1 ==> Feed(d, data[..to]) == Step(Feed(d, data[..at]), data[at])
  {
    assert data[..to] == data[..at] + data[at..to];
    FeedConcat(d, data[..at], data[at..to]);
    if to == at + 1 {
      var next := Step(Feed(d, data[..at]), data[at]);
      assert data[at..to] == [data[at]] && [data[at]][1..] == [];
      assert Feed(next, []) == next;
    }
  }

  lemma StepStaysValid(d: Decoder, ch: byte)
    requires Valid(d)
    ensures Valid(Step(d, ch))
  {
  }
}
