/**
 The chunked transfer coding (section 7.1 of RFC 9112) as a function of bytes: what the connection's
 decoder must compute, independently of how reads cut the input.
 */
module ChunkedCoding {
  import opened Text

  const LONG_MAX := 0x7FFF_FFFF_FFFF_FFFF

  // ---------- The size line ----------

  predicate IsBlank(c: char) { c == ' ' || c == '\t' }
  predicate EndsSize(c: char) { c == ';' || c == ' ' || c == '\t' }

  function SkipBlanks(s: string): string {
    if s != "" && IsBlank(s[0]) then SkipBlanks(s[1..]) else s
  }

  function SizeToken(s: string): (t: string)
    ensures t <= s
    ensures forall i :: 0 <= i < |t| ==> !EndsSize(t[i])
    ensures |t| < |s| ==> EndsSize(s[|t|])
  {
    if s == "" || EndsSize(s[0]) then "" else [s[0]] + SizeToken(s[1..])
  }

  predicate AllHex(s: string) { forall i :: 0 <= i < |s| ==> IsHexDigit(s[i]) }

  function HexValue(s: string): nat
    requires AllHex(s)
  {
    if s == "" then 0 else 16 * HexValue(s[..|s| - 1]) + HexDigitValue(s[|s| - 1])
  }

  /** strtol in base 16: saturates at LONG_MAX. */
  function Strtol16(s: string): nat
    requires AllHex(s)
  {
    if HexValue(s) >= LONG_MAX then LONG_MAX else HexValue(s)
  }

  /** The size announced by a size line, if the line is acceptable. */
  function ParseSize(line: string): Option<nat> {
    var token := SizeToken(SkipBlanks(line));
    if token == "" || !AllHex(token) || HexValue(token) >= LONG_MAX then None else Some(HexValue(token))
  }

  method ParseChunkSizeLine(line: string) returns (ok: bool, size: nat)
    ensures ok <==> ParseSize(line).Some?
    ensures ok ==> Some(size) == ParseSize(line)
  {
    size := 0;
    var start := SkipLeadingBlanks(line);
    var sizeEnd;
    ok, sizeEnd := ScanSize(line, start);
    if ok && sizeEnd > start {
      size := Strtol16(line[start..sizeEnd]);
      ok := size != LONG_MAX;
    } else {
      ok := false;
    }
  }

  method SkipLeadingBlanks(line: string) returns (start: nat)
    ensures start <= |line| && SkipBlanks(line) == line[start..]
  {
    start := 0;
    while start < |line| && IsBlank(line[start])
      invariant 0 <= start <= |line| && SkipBlanks(line[start..]) == SkipBlanks(line)
    {
      assert line[start..][1..] == line[start + 1..];
      start := start + 1;
    }
  }

  method ScanSize(line: string, start: nat) returns (hex: bool, sizeEnd: nat)
    requires start <= |line|
    ensures start <= sizeEnd <= |line|
    ensures hex ==> SizeToken(line[start..]) == line[start..sizeEnd]
    ensures hex <==> AllHex(SizeToken(line[start..]))
  {
    ghost var tail := line[start..];
    sizeEnd := start;
    while sizeEnd < |line| && !EndsSize(line[sizeEnd])
      invariant start <= sizeEnd <= |line|
      invariant forall i :: 0 <= i < sizeEnd - start ==> !EndsSize(tail[i]) && IsHexDigit(tail[i])
    {
      if !IsHexDigit(line[sizeEnd]) {
        TokenReaches(tail, sizeEnd - start);
        assert SizeToken(tail)[sizeEnd - start] == tail[sizeEnd - start];
        return false, sizeEnd;
      }
      sizeEnd := sizeEnd + 1;
    }
    TokenIs(tail, sizeEnd - start);
    assert tail[..sizeEnd - start] == line[start..sizeEnd];
    return true, sizeEnd;
  }

  lemma TokenReaches(s: string, k: nat)
    requires k < |s| && forall i :: 0 <= i <= k ==> !EndsSize(s[i])
    ensures k < |SizeToken(s)|
  {
  }

  lemma TokenIs(s: string, k: nat)
    requires k <= |s| && (forall i :: 0 <= i < k ==> !EndsSize(s[i])) && (k < |s| ==> EndsSize(s[k]))
    ensures SizeToken(s) == s[..k]
  {
    if k > 0 { TokenReaches(s, k - 1); }
  }

  // ---------- Decoding ----------

  /** Where the decoder stands between two pieces of input. */
  datatype Phase = Size | Data(remaining: nat) | DataCrlf | Trailer

  datatype Decoded =
    | NeedMore(phase: Phase, rest: string, body: string)
    | Finished(body: string)
    | BadRequest
    | TooLarge

  /** One turn of the decoder: it goes on behind the used bytes, waits for more, or stops. */
  datatype Turn =
    | Advance(phase: Phase, used: nat, body: string)
    | Wait(phase: Phase, used: nat, body: string)
    | Halt(result: Decoded)

  function TurnOf(phase: Phase, input: string, body: string, limit: nat): (turn: Turn)
    requires input != ""
    ensures !turn.Halt? ==> turn.used <= |input|
    ensures turn.Halt? ==> !turn.result.NeedMore?
    ensures turn.Advance? && turn.used == 0 ==> phase.Data? && !turn.phase.Data?
  {
    match phase
    case Size =>
      var end := Find(input, CRLF, 0);
      if end < 0 then Wait(Size, 0, body)
      else
        var size := ParseSize(input[..end]);
        if size.None? then Halt(BadRequest)
        else Advance(if size.value == 0 then Trailer else Data(size.value), end + 2, body)
    case Data(remaining) =>
      var n := if |input| < remaining then |input| else remaining;
      if n > 0 && |body| + n > limit then Halt(TooLarge)
      else if n < remaining then Wait(Data(remaining - n), n, body + input)
      else Advance(DataCrlf, n, body + input[..n])
    case DataCrlf =>
      if |input| < 2 then Wait(DataCrlf, 0, body)
      else if input[0] != '\r' || input[1] != '\n' then Halt(BadRequest)
      else Advance(Size, 2, body)
    case Trailer =>
      var end := Find(input, CRLF, 0);
      if end < 0 then Wait(Trailer, 0, body)
      else if end == 0 then Halt(Finished(body))
      else Advance(Trailer, end + 2, body)
  }

  lemma SizeTurn(input: string, body: string, limit: nat)
    requires Find(input, CRLF, 0) >= 0
    ensures var end := Find(input, CRLF, 0); var size := ParseSize(input[..end]);
            TurnOf(Size, input, body, limit)
            == if size.None? then Halt(BadRequest)
               else Advance(if size.value == 0 then Trailer else Data(size.value), end + 2, body)
  {
  }

  function Decode(phase: Phase, input: string, body: string, limit: nat): Decoded
    decreases |input|, if phase.Data? then 1 else 0
  {
    if input == "" then NeedMore(phase, "", body)
    else
      var turn := TurnOf(phase, input, body, limit);
      match turn
      case Advance(next, used, longer) => Decode(next, input[used..], longer, limit)
      case Wait(next, used, longer) => NeedMore(next, input[used..], longer)
      case Halt(result) => result
  }

  lemma DecodeAdvance(phase: Phase, input: string, body: string, limit: nat, next: Phase, used: nat, longer: string, rest: string)
    requires input != "" && TurnOf(phase, input, body, limit) == Advance(next, used, longer) && rest == input[used..]
    ensures Decode(phase, input, body, limit) == Decode(next, rest, longer, limit)
  {
  }

  lemma DecodeWait(phase: Phase, input: string, body: string, limit: nat, next: Phase, used: nat, longer: string, rest: string)
    requires input != "" && TurnOf(phase, input, body, limit) == Wait(next, used, longer) && rest == input[used..]
    ensures Decode(phase, input, body, limit) == NeedMore(next, rest, longer)
  {
  }

  lemma DecodeHalt(phase: Phase, input: string, body: string, limit: nat)
    requires input != "" && TurnOf(phase, input, body, limit).Halt?
    ensures Decode(phase, input, body, limit) == TurnOf(phase, input, body, limit).result
  {
  }

  /** Continue a decoding with more input. */
  function Resume(d: Decoded, more: string, limit: nat): Decoded {
    if d.NeedMore? then Decode(d.phase, d.rest + more, d.body, limit) else d
  }

  /** A turn that did not have to wait is not changed by more input. */
  lemma TurnStable(phase: Phase, a: string, b: string, body: string, limit: nat)
    requires a != "" && !TurnOf(phase, a, body, limit).Wait?
    ensures TurnOf(phase, a + b, body, limit) == TurnOf(phase, a, body, limit)
  {
    match phase
    case Size =>
      FindStable(a, b, CRLF);
      assert (a + b)[..Find(a, CRLF, 0)] == a[..Find(a, CRLF, 0)];
    case Trailer => FindStable(a, b, CRLF);
    case DataCrlf =>
    case Data(remaining) =>
      if remaining <= |a| { assert (a + b)[..remaining] == a[..remaining]; }
  }

  /** A chunk's data may be cut anywhere. */
  lemma DataSplit(remaining: nat, a: string, b: string, body: string, limit: nat)
    requires a != "" && |a| < remaining && |body| + |a| <= limit
    ensures Decode(Data(remaining), a + b, body, limit) == Decode(Data(remaining - |a|), b, body + a, limit)
  {
    var more := remaining - |a|;
    if b == "" {
      assert a + b == a && a[|a|..] == "";
    } else {
      var n := if |b| < more then |b| else more;
      assert (a + b)[..|a| + n] == a + b[..n] && (a + b)[|a| + n..] == b[n..];
      assert body + (a + b[..n]) == (body + a) + b[..n];
      assert body + (a + b) == (body + a) + b;
    }
  }

  /** Decoding a + b is decoding a and resuming with b, wherever the cut is. */
  lemma {:induction false} DecodeSplit(phase: Phase, a: string, b: string, body: string, limit: nat)
    ensures Decode(phase, a + b, body, limit) == Resume(Decode(phase, a, body, limit), b, limit)
    decreases |a|, if phase.Data? then 1 else 0
  {
    if a == "" {
      assert a + b == b;
    } else {
      var turn := TurnOf(phase, a, body, limit);
      match turn
      case Advance(next, used, longer) =>
        TurnStable(phase, a, b, body, limit);
        assert (a + b)[used..] == a[used..] + b;
        DecodeSplit(next, a[used..], b, longer, limit);
      case Halt(_) => TurnStable(phase, a, b, body, limit);
      case Wait(next, used, longer) =>
        if phase.Data? {
          DataSplit(phase.remaining, a, b, body, limit);
          assert a[used..] + b == b;
        } else {
          assert a[used..] == a;
        }
    }
  }

  /** Input left over for want of more holds no complete line. */
  lemma {:induction false} RestHasNoLine(phase: Phase, input: string, body: string, limit: nat)
    ensures var d := Decode(phase, input, body, limit); d.NeedMore? ==> Find(d.rest, CRLF, 0) == -1
    decreases |input|, if phase.Data? then 1 else 0
  {
    if input != "" {
      var turn := TurnOf(phase, input, body, limit);
      if turn.Advance? {
        RestHasNoLine(turn.phase, input[turn.used..], turn.body, limit);
      } else if turn.Wait? {
        assert phase.Data? ==> input[turn.used..] == "";
        assert !phase.Data? ==> input[turn.used..] == input;
      }
    }
  }

  /** Without more input a decoding that waits goes on waiting where it is. */
  lemma DecodeIdle(phase: Phase, input: string, body: string, limit: nat)
    ensures var d := Decode(phase, input, body, limit); d.NeedMore? ==> Decode(d.phase, d.rest, d.body, limit) == d
  {
    var d := Decode(phase, input, body, limit);
    DecodeSplit(phase, input, "", body, limit);
    assert input + "" == input;
    if d.NeedMore? { assert d.rest + "" == d.rest; }
  }

  // ---------- Reads ----------

  function Concat(pieces: seq<string>): string {
    if pieces == [] then "" else pieces[0] + Concat(pieces[1..])
  }

  /** Decoding read by read, each piece resuming where the last one stopped. */
  function DecodeReads(d: Decoded, pieces: seq<string>, limit: nat): Decoded
    decreases |pieces|
  {
    if pieces == [] then d else DecodeReads(Resume(d, pieces[0], limit), pieces[1..], limit)
  }

  /** Only the concatenation of the pieces matters: any two ways to cut the same bytes give the same result. */
  lemma {:induction false} ReadsDoNotMatter(phase: Phase, start: string, pieces: seq<string>, body: string, limit: nat)
    ensures DecodeReads(Decode(phase, start, body, limit), pieces, limit)
            == Decode(phase, start + Concat(pieces), body, limit)
    decreases |pieces|
  {
    if pieces == [] {
      assert start + Concat(pieces) == start;
    } else {
      var d := Decode(phase, start, body, limit);
      calc {
        DecodeReads(d, pieces, limit);
        DecodeReads(Resume(d, pieces[0], limit), pieces[1..], limit);
        { DecodeSplit(phase, start, pieces[0], body, limit); }
        DecodeReads(Decode(phase, start + pieces[0], body, limit), pieces[1..], limit);
        { ReadsDoNotMatter(phase, start + pieces[0], pieces[1..], body, limit); }
        Decode(phase, start + pieces[0] + Concat(pieces[1..]), body, limit);
        { assert start + pieces[0] + Concat(pieces[1..]) == start + Concat(pieces); }
        Decode(phase, start + Concat(pieces), body, limit);
      }
    }
  }

  // ---------- Encoding and the round trip ----------

  datatype Chunk = Chunk(data: string, extension: string)

  const HEX_DIGITS := "0123456789abcdef"

  function HexString(n: nat): (s: string) {
    if n < 16 then [HEX_DIGITS[n]] else HexString(n / 16) + [HEX_DIGITS[n % 16]]
  }

  predicate ValidExtension(e: string) { '\r' !in e && (e == "" || e[0] == ';') }
  predicate ValidChunk(c: Chunk) { c.data != "" && ValidExtension(c.extension) }

  function SizeLine(n: nat, extension: string): string { HexString(n) + extension + CRLF }

  function EncodeChunks(chunks: seq<Chunk>): string {
    if chunks == [] then ""
    else SizeLine(|chunks[0].data|, chunks[0].extension) + (chunks[0].data + (CRLF + EncodeChunks(chunks[1..])))
  }

  function EncodeTrailers(lines: seq<string>): string {
    if lines == [] then CRLF else lines[0] + CRLF + EncodeTrailers(lines[1..])
  }

  /** A whole chunked body: the chunks, the zero chunk, trailer fields and the final empty line. */
  function Encode(chunks: seq<Chunk>, lastExtension: string, trailers: seq<string>): string {
    EncodeChunks(chunks) + (SizeLine(0, lastExtension) + EncodeTrailers(trailers))
  }

  function Payload(chunks: seq<Chunk>): string {
    if chunks == [] then "" else chunks[0].data + Payload(chunks[1..])
  }

  lemma {:induction false} HexStringReads(n: nat)
    ensures HexString(n) != "" && AllHex(HexString(n)) && HexValue(HexString(n)) == n
  {
    if n < 16 {
      HexDigitReads(n);
      assert HexString(n)[..0] == "";
    } else {
      HexStringReads(n / 16);
      HexDigitReads(n % 16);
      assert HexString(n)[..|HexString(n)| - 1] == HexString(n / 16);
    }
  }

  lemma HexDigitReads(d: nat)
    requires d < 16
    ensures IsHexDigit(HEX_DIGITS[d]) && HexDigitValue(HEX_DIGITS[d]) == d
  {
  }

  /** A size line pieces back as its size. */
  lemma SizeLineReads(n: nat, extension: string)
    requires n < LONG_MAX && ValidExtension(extension)
    ensures ParseSize(HexString(n) + extension) == Some(n)
  {
    HexStringReads(n);
    var line := HexString(n) + extension;
    assert IsHexDigit(line[0]) && SkipBlanks(line) == line;
    TokenIs(line, |HexString(n)|);
    assert line[..|HexString(n)|] == HexString(n);
  }

  lemma DecodeSizeLine(n: nat, extension: string, rest: string, body: string, limit: nat)
    requires n < LONG_MAX && ValidExtension(extension)
    ensures Decode(Size, SizeLine(n, extension) + rest, body, limit)
            == Decode(if n == 0 then Trailer else Data(n), rest, body, limit)
  {
    SizeLineReads(n, extension);
    HexStringReads(n);
    var line := HexString(n) + extension;
    forall c | c in HexString(n) ensures c != '\r' {}
    LineEnds(line, rest);
    assert TurnOf(Size, line + CRLF + rest, body, limit) == Advance(if n == 0 then Trailer else Data(n), |line| + 2, body);
  }

  lemma DecodeChunk(c: Chunk, rest: string, body: string, limit: nat)
    requires ValidChunk(c) && |body| + |c.data| <= limit < LONG_MAX
    ensures Decode(Size, SizeLine(|c.data|, c.extension) + (c.data + (CRLF + rest)), body, limit)
            == Decode(Size, rest, body + c.data, limit)
  {
    var tail := c.data + (CRLF + rest);
    DecodeSizeLine(|c.data|, c.extension, tail, body, limit);
    assert tail[..|c.data|] == c.data && tail[|c.data|..] == CRLF + rest;
    assert (CRLF + rest)[2..] == rest;
  }

  lemma {:induction false} DecodeTrailers(lines: seq<string>, rest: string, body: string, limit: nat)
    requires forall i :: 0 <= i < |lines| ==> lines[i] != "" && '\r' !in lines[i]
    ensures Decode(Trailer, EncodeTrailers(lines) + rest, body, limit) == Finished(body)
  {
    if lines == [] {
      LineEnds("", rest);
      assert "" + CRLF + rest == EncodeTrailers(lines) + rest;
    } else {
      LineEnds(lines[0], EncodeTrailers(lines[1..]) + rest);
      assert EncodeTrailers(lines) + rest == lines[0] + CRLF + (EncodeTrailers(lines[1..]) + rest);
      DecodeTrailers(lines[1..], rest, body, limit);
    }
  }

  lemma Regroup(a: string, b: string, c: string, d: string, e: string)
    ensures (a + (b + (c + d))) + e == a + (b + (c + (d + e)))
  {
    assert (c + d) + e == c + (d + e);
    assert (b + (c + d)) + e == b + (c + (d + e));
  }

  lemma {:induction false} DecodeChunks(chunks: seq<Chunk>, rest: string, body: string, limit: nat)
    requires (forall i :: 0 <= i < |chunks| ==> ValidChunk(chunks[i])) && |body| + |Payload(chunks)| <= limit < LONG_MAX
    ensures Decode(Size, EncodeChunks(chunks) + rest, body, limit) == Decode(Size, rest, body + Payload(chunks), limit)
    decreases |chunks|
  {
    if chunks == [] {
      assert EncodeChunks(chunks) + rest == rest && body + "" == body;
    } else {
      var c, more := chunks[0], EncodeChunks(chunks[1..]) + rest;
      calc {
        Decode(Size, EncodeChunks(chunks) + rest, body, limit);
        { Regroup(SizeLine(|c.data|, c.extension), c.data, CRLF, EncodeChunks(chunks[1..]), rest); }
        Decode(Size, SizeLine(|c.data|, c.extension) + (c.data + (CRLF + more)), body, limit);
        { DecodeChunk(c, more, body, limit); }
        Decode(Size, more, body + c.data, limit);
        { DecodeChunks(chunks[1..], rest, body + c.data, limit); }
        Decode(Size, rest, body + c.data + Payload(chunks[1..]), limit);
        { assert body + c.data + Payload(chunks[1..]) == body + Payload(chunks); }
        Decode(Size, rest, body + Payload(chunks), limit);
      }
    }
  }

  /**
   Round trip: every body within the limit, cut into non-empty chunks in any way, with any extensions and
   trailer fields, decodes to exactly that body, whatever follows and however the bytes arrive.
   */
  lemma RoundTrip(chunks: seq<Chunk>, lastExtension: string, trailers: seq<string>, following: string,
                  pieces: seq<string>, limit: nat)
    requires forall i :: 0 <= i < |chunks| ==> ValidChunk(chunks[i])
    requires ValidExtension(lastExtension)
    requires forall i :: 0 <= i < |trailers| ==> trailers[i] != "" && '\r' !in trailers[i]
    requires |Payload(chunks)| <= limit < LONG_MAX
    requires Concat(pieces) == Encode(chunks, lastExtension, trailers) + following
    ensures DecodeReads(NeedMore(Size, "", ""), pieces, limit) == Finished(Payload(chunks))
  {
    var tail := EncodeTrailers(trailers) + following;
    var last := SizeLine(0, lastExtension) + tail;
    assert Concat(pieces) == EncodeChunks(chunks) + last;
    DecodeChunks(chunks, last, "", limit);
    DecodeSizeLine(0, lastExtension, tail, "" + Payload(chunks), limit);
    DecodeTrailers(trailers, following, "" + Payload(chunks), limit);
    assert "" + Payload(chunks) == Payload(chunks);
    ReadsDoNotMatter(Size, "", pieces, "", limit);
    assert "" + Concat(pieces) == Concat(pieces);
  }
}
