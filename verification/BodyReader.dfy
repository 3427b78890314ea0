/**
 Reading a request body: the ring buffer, its flat mirror, and the incremental parsers that run on the
 mirror after every read.  The object begins where the header parser ends.  The ghost field `stream`
 holds every body byte the kernel has delivered so far, whatever the reads were.
 */
module BodyReader {
  import opened Text
  import opened RingBuffer
  import opened ChunkedCoding

  datatype LineStatus = LineOk | LineBad | LineOpen

  /** The first CR or LF in a range of the buffer, or the end of the range. */
  function FirstBreak(buf: string, start: nat, end: nat): (k: nat)
    requires start <= end <= |buf|
    ensures start <= k <= end && (k < end ==> buf[k] in CRLF)
    ensures forall j :: start <= j < k ==> buf[j] !in CRLF
    decreases end - start
  {
    if start == end || buf[start] in CRLF then start else FirstBreak(buf, start + 1, end)
  }

  function LineAt(buf: string, k: nat, end: nat): LineStatus
    requires k <= end <= |buf|
  {
    if k == end then LineOpen
    else if buf[k] == '\r' then
      if k + 1 == end then LineOpen else if buf[k + 1] == '\n' then LineOk else LineBad
    else if k > 1 && buf[k - 1] == '\r' then LineOk
    else LineBad
  }
  datatype Code = NoRequest | GetRequest | BadRequestCode | PayloadTooLarge
  datatype ChunkState = StateSize | StateData | StateDataCrlf | StateTrailer | StateDone

  /** How one round of the chunk loop ends. */
  datatype Round = Continue | Starved | Return(code: Code)

  /** The status a decoding stands for. */
  function CodeOf(d: Decoded): Code {
    match d
    case NeedMore(_, _, _) => NoRequest
    case Finished(_) => GetRequest
    case BadRequest => BadRequestCode
    case TooLarge => PayloadTooLarge
  }

  function Min(a: nat, b: nat): nat { if a < b then a else b }

  /** How the header says the body is delimited, and the limit on what it may decode to. */
  datatype Framing = Framing(chunked: bool, contentLength: nat, limit: nat)

  /** The status a request body has, as a function of its bytes alone. */
  function Outcome(f: Framing, stream: string): Code {
    if f.chunked then CodeOf(Decode(Size, stream, "", f.limit))
    else if |stream| >= f.contentLength then GetRequest else NoRequest
  }

  /** The body of a complete request, as a function of its bytes alone. */
  function OutcomeBody(f: Framing, stream: string): string
    requires Outcome(f, stream).GetRequest?
  {
    if f.chunked then Decode(Size, stream, "", f.limit).body else stream[..f.contentLength]
  }

  /** A status once reached is not changed by bytes that come later. */
  lemma OutcomeStable(f: Framing, stream: string, later: string)
    requires !Outcome(f, stream).NoRequest?
    ensures Outcome(f, stream + later) == Outcome(f, stream)
    ensures Outcome(f, stream).GetRequest? ==> OutcomeBody(f, stream + later) == OutcomeBody(f, stream)
  {
    if f.chunked { DecodeSplit(Size, stream, later, "", f.limit); }
  }

  // ---------- Read events ----------

  const ET_READ_EVENT_MAX_RECVS := 64

  datatype Mode = Level | Edge

  /** The bytes waiting in the kernel, its answers to the receive calls, and the error number left by earlier calls. */
  datatype Event = Event(data: string, answers: seq<Recv>, stale: Errno)

  datatype Cause = ByNetwork | ByBuffer

  /** A read event leaves the connection open, cuts it, or never ends. */
  datatype End = Open | Cut(cause: Cause) | Spinning

  predicate LimitsPositive(answers: seq<Recv>) { forall r <- answers :: r.Bytes? ==> r.limit > 0 }

  /** The peer's end, or an error that is neither an interruption nor a full socket. */
  predicate Breaks(r: Recv) { !r.Bytes? && r != Failed(EINTR) && r != Failed(EAGAIN) }

  predicate NetworkFails(answers: seq<Recv>) { exists r <- answers :: Breaks(r) }

  /** What a full ring makes of the error number it finds. */
  function OnStale(stale: Errno): End {
    match stale
    case EAGAIN => Open
    case EINTR => Spinning
    case OtherErrno => Cut(ByBuffer)
  }

  /** The kernel's answer to the next receive call; without further ones it hands over what is there. */
  function AnswerAt(event: Event, k: nat): (r: Recv)
    requires event.data != "" && LimitsPositive(event.answers)
    ensures (r.Bytes? ==> r.limit > 0) && (!r.Bytes? ==> k < |event.answers| && r in event.answers)
    ensures Breaks(r) ==> NetworkFails(event.answers)
  {
    if k < |event.answers| then
      assert event.answers[k] in event.answers;
      event.answers[k]
    else Bytes(|event.data|)
  }

  /** What is known when a read event ends: bytes and receive calls of the event, fill and capacity of the ring. */
  datatype Tally = Tally(taken: nat, calls: nat, size: nat, capacity: nat, spooling: bool)

  /** Why a read event ends as it does. */
  predicate EndsFor(mode: Mode, event: Event, end: End, t: Tally) {
    match (mode, end)
    case (Level, Open) =>
      && (t.size == t.capacity ==> t.taken > 0 && event.stale == EAGAIN)
      && (t.taken == |event.data| || t.size == t.capacity || Failed(EAGAIN) in event.answers)
    case (Level, Cut(ByBuffer)) => t.size == t.capacity && (if t.taken == 0 then t.size == READ_BUFFER_MAX_SIZE else event.stale == OtherErrno)
    case (Level, Spinning) => t.size == t.capacity && t.taken > 0 && event.stale == EINTR
    case (Edge, Open) =>
      && t.taken > 0 && (t.size == READ_BUFFER_MAX_SIZE ==> t.calls >= ET_READ_EVENT_MAX_RECVS)
      && (t.taken == |event.data| || t.calls >= ET_READ_EVENT_MAX_RECVS || Failed(EAGAIN) in event.answers)
    case (Edge, Cut(ByBuffer)) => t.size == READ_BUFFER_MAX_SIZE && t.calls < ET_READ_EVENT_MAX_RECVS && (t.taken == 0 || !t.spooling)
    case (Edge, Spinning) => t.size == READ_BUFFER_MAX_SIZE && t.calls < ET_READ_EVENT_MAX_RECVS && t.taken > 0 && t.spooling
    case (_, Cut(ByNetwork)) =>
      && t.size < t.capacity
      && (NetworkFails(event.answers) || (mode.Edge? && t.taken == 0 && (event.data == "" || Failed(EAGAIN) in event.answers)))
  }

  /** The guard at which the buffer ends a connection: in level-triggered mode any full ring can, given the wrong stale error. */
  predicate BufferCuts(mode: Mode, stale: Errno, t: Tally) {
    if mode.Level? then t.size == t.capacity && (t.taken == 0 || stale == OtherErrno)
    else t.size == READ_BUFFER_MAX_SIZE && t.calls < ET_READ_EVENT_MAX_RECVS && (t.taken == 0 || !t.spooling)
  }

  /** The connection is cut for its buffer exactly at that guard, and the event never ends exactly at its twin. */
  lemma CutByBufferIff(mode: Mode, event: Event, end: End, t: Tally)
    requires EndsFor(mode, event, end, t) && t.size <= t.capacity <= READ_BUFFER_MAX_SIZE
    ensures end == Cut(ByBuffer) <==> BufferCuts(mode, event.stale, t)
    ensures end == Spinning <==> if mode.Level? then t.size == t.capacity && t.taken > 0 && event.stale == EINTR
                                 else t.size == READ_BUFFER_MAX_SIZE && t.calls < ET_READ_EVENT_MAX_RECVS && t.taken > 0 && t.spooling
  {
  }

  /**
   A whole body in either mode, for every way the client and the kernel may cut it into read events.  Bytes an
   event leaves in the kernel are there for the next one.  As long as the connection is open, status and body
   are those of the bytes received, and once there is a status it is that of all the bytes sent.
   */
  method ReadBody(c: Connection, mode: Mode, events: seq<Event>) returns (code: Code, end: End, left: string)
    requires c.Valid() && c.Synced() && forall e <- events :: LimitsPositive(e.answers)
    modifies c, c.ring, c.ring.buffer
    ensures c.stream + left == old(c.stream) + Sent(events)
    ensures end.Open? ==> code == Outcome(c.HeaderFraming(), c.stream)
    ensures end.Open? && !code.NoRequest? ==> code == Outcome(c.HeaderFraming(), old(c.stream) + Sent(events))
    ensures end.Open? && code.GetRequest? ==> c.Body() == OutcomeBody(c.HeaderFraming(), old(c.stream) + Sent(events))
    ensures end.Open? || CutFor(c, mode, events, end)
  {
    code := c.ProcessRead();
    end, left := Open, Sent(events);
    if code == NoRequest { code, end, left := ReadEvents(c, mode, events); }
    if end.Open? && code != NoRequest { OutcomeStable(c.HeaderFraming(), c.stream, left); }
  }

  /**
   The event that ended it did so for a reason of its mode: its data, its answers, its stale error number, and the
   ring as it is now.  In particular an edge-triggered connection is cut for its buffer only at the full limit, and
   the network cuts it only by failing.
   */
  ghost predicate CutFor(c: Connection, mode: Mode, events: seq<Event>, end: End)
    reads c, c.ring
  {
    && (exists e, data, taken, calls :: e in events && c.EndedBy(mode, e, data, end, taken, calls))
    && (mode.Edge? && end == Cut(ByBuffer) ==> c.headerSize + |c.stream| >= READ_BUFFER_MAX_SIZE)
    && (end == Cut(ByNetwork) ==> exists e <- events :: NetworkFails(e.answers) || (mode.Edge? && Failed(EAGAIN) in e.answers))
  }

  method ReadEvents(c: Connection, mode: Mode, events: seq<Event>) returns (code: Code, end: End, left: string)
    requires c.Reports(NoRequest) && forall e <- events :: LimitsPositive(e.answers)
    modifies c, c.ring, c.ring.buffer
    ensures c.stream + left == old(c.stream) + Sent(events)
    ensures if end.Open? then c.Reports(code) else CutFor(c, mode, events, end)
  {
    code, end, left := NoRequest, Open, "";
    var i := 0;
    ghost var all := c.stream + Sent(events);
    assert "" + Sent(events[0..]) == Sent(events) by { assert events[0..] == events; }
    while i < |events| && code == NoRequest && end.Open?
      invariant 0 <= i <= |events| && Remaining(c.stream, left, events, i, all)
      invariant if end.Open? then c.Reports(code) else CutFor(c, mode, events, end)
      invariant c.ring.buffer == old(c.ring.buffer) || fresh(c.ring.buffer)
      decreases |events| - i
    {
      code, end, left := ReadEvent(c, mode, events, i, left, all);
      i := i + 1;
    }
    left := left + Sent(events[i..]);
  }

  /** The i-th event, with what the earlier ones left in the kernel. */
  method ReadEvent(c: Connection, mode: Mode, events: seq<Event>, i: nat, left: string, ghost all: string)
    returns (code: Code, end: End, left': string)
    requires i < |events| && c.Reports(NoRequest) && Remaining(c.stream, left, events, i, all)
    requires forall e <- events :: LimitsPositive(e.answers)
    modifies c, c.ring, c.ring.buffer
    ensures Remaining(c.stream, left', events, i + 1, all)
    ensures if end.Open? then c.Reports(code) else CutFor(c, mode, events, end)
    ensures c.ring.buffer == old(c.ring.buffer) || fresh(c.ring.buffer)
  {
    var event := events[i].(data := left + events[i].data);
    assert events[i] in events;
    var taken := 0;
    code, end := NoRequest, Open;
    if event.data != "" {
      var calls;
      end, taken, code, calls := c.OnReadable(mode, event);
      assert end.Open? || c.EndedBy(mode, events[i], event.data, end, taken, calls);
    }
    NextRead(old(c.stream), left, events, i, taken, all);
    left' := event.data[taken..];
  }

  /** All the bytes of the events. */
  function Sent(events: seq<Event>): string {
    if events == [] then "" else events[0].data + Sent(events[1..])
  }

  /** What was received, what is left in the kernel and what is still to be sent make up the whole input. */
  ghost predicate Remaining(stream: string, left: string, events: seq<Event>, i: nat, all: string)
    requires i <= |events|
  {
    stream + (left + Sent(events[i..])) == all
  }

  lemma NextRead(stream: string, left: string, events: seq<Event>, i: nat, taken: nat, all: string)
    requires i < |events| && Remaining(stream, left, events, i, all) && taken <= |left + events[i].data|
    ensures var data := left + events[i].data; Remaining(stream + data[..taken], data[taken..], events, i + 1, all)
    ensures taken == 0 ==> stream + (left + events[i].data)[..taken] == stream
  {
    var data, later := left + events[i].data, Sent(events[i + 1..]);
    assert events[i..][1..] == events[i + 1..];
    calc {
      all;
      stream + (left + (events[i].data + later));
      { assert left + (events[i].data + later) == data + later && data == data[..taken] + data[taken..]; }
      stream + ((data[..taken] + data[taken..]) + later);
      (stream + data[..taken]) + (data[taken..] + later);
    }
  }

  /** Everything about a connection that says which body bytes it has dealt with. */
  datatype Account =
    | Chunked(parseIdx: nat, phase: Phase, body: string, limit: nat)
    | Spooled(bodyStart: nat, spool: string, contentLength: nat)
    | Buffered(bodyStart: nat)

  /** What has been dealt with and what the ring still holds make up the stream of body bytes. */
  ghost predicate Accounts(a: Account, contents: string, stream: string) {
    match a
    case Chunked(parseIdx, phase, body, limit) =>
      parseIdx <= |contents| && Decode(phase, contents[parseIdx..], body, limit) == Decode(Size, stream, "", limit)
    case Spooled(bodyStart, spool, contentLength) =>
      && bodyStart <= |contents| && spool <= stream && |spool| <= contentLength
      && (|spool| < contentLength ==> spool + contents[bodyStart..] == stream)
    case Buffered(bodyStart) => bodyStart <= |contents| && contents[bodyStart..] == stream
  }

  lemma FirstAccount(header: string, first: string, contentLength: nat, limit: nat)
    ensures (header + first)[|header|..] == first
    ensures Accounts(Chunked(|header|, Size, "", limit), header + first, first)
    ensures Accounts(Spooled(|header|, "", contentLength), header + first, first)
    ensures Accounts(Buffered(|header|), header + first, first)
  {
    assert (header + first)[|header|..] == first;
    assert "" + first == first;
  }

  /** More bytes from the kernel leave the account in order. */
  lemma MoreBytes(a: Account, contents: string, stream: string, data: string)
    requires Accounts(a, contents, stream)
    ensures Accounts(a, contents + data, stream + data)
  {
    match a
    case Chunked(parseIdx, phase, body, limit) =>
      assert (contents + data)[parseIdx..] == contents[parseIdx..] + data;
      MoreChunked(phase, contents[parseIdx..], data, body, limit, stream);
    case Spooled(bodyStart, spool, contentLength) =>
      assert (contents + data)[bodyStart..] == contents[bodyStart..] + data;
      assert spool + (contents[bodyStart..] + data) == (spool + contents[bodyStart..]) + data;
    case Buffered(bodyStart) =>
      assert (contents + data)[bodyStart..] == contents[bodyStart..] + data;
  }

  lemma DropParsed(k: nat, phase: Phase, body: string, limit: nat, contents: string, stream: string)
    requires Accounts(Chunked(k, phase, body, limit), contents, stream)
    ensures Accounts(Chunked(0, phase, body, limit), contents[k..], stream)
  {
    assert contents[k..][0..] == contents[k..];
  }

  lemma TerminatorOutside(buf: string, from: nat, len: nat, n: nat)
    requires from + len <= n < |buf|
    ensures buf[from + len := '\0'][from..from + len] == buf[from..n][..len]
  {
  }

  lemma SliceSplit(a: string, from: nat, len: nat, n: nat)
    requires from + len <= n <= |a|
    ensures a[from..from + len] == a[from..n][..len]
    ensures a[from + len..n] == a[from..n][len..]
  {
  }

  lemma PrefixGrows(prefix: string, rest: string, n: nat, all: string)
    requires prefix + rest == all && n <= |rest|
    ensures prefix + rest[..n] == all[..|prefix| + n]
  {
  }

  lemma NextPiece(earlier: string, data: string, i: nat, n: nat)
    requires i + n <= |data|
    ensures (earlier + data[..i]) + data[i..][..n] == earlier + data[..i + n]
  {
    assert data[..i] + data[i..][..n] == data[..i + n];
  }

  lemma SliceOfSlice(a: string, b: string, from: nat, k: nat, n: nat)
    requires from <= k <= n <= |a| && n == |b| && a[from..n] == b[from..]
    ensures a[k..n] == b[k..]
  {
    assert a[k..n] == a[from..n][k - from..];
    assert b[k..] == b[from..][k - from..];
  }

  lemma SyncedSlice(mirror: string, all: string, n: nat)
    requires n == |all| <= |mirror| && mirror[..n] == all
    ensures forall k :: 0 <= k <= n ==> mirror[k..n] == all[k..]
  {
    forall k | 0 <= k <= n ensures mirror[k..n] == all[k..] { assert mirror[k..n] == mirror[..n][k..]; }
  }

  lemma MoreChunked(phase: Phase, pending: string, data: string, body: string, limit: nat, earlier: string)
    requires Decode(phase, pending, body, limit) == Decode(Size, earlier, "", limit)
    ensures Decode(phase, pending + data, body, limit) == Decode(Size, earlier + data, "", limit)
  {
    DecodeSplit(phase, pending, data, body, limit);
    DecodeSplit(Size, earlier, data, "", limit);
  }

  lemma WaitingState(stream: string, phase: Phase, rest: string, body: string, limit: nat)
    requires Decode(Size, stream, "", limit) == NeedMore(phase, rest, body)
    ensures Decode(phase, rest, body, limit) == Decode(Size, stream, "", limit)
    ensures Find(rest, CRLF, 0) == -1
  {
    RestHasNoLine(Size, stream, "", limit);
    DecodeIdle(Size, stream, "", limit);
  }

  class Connection {
    const ring: Ring
    const chunked: bool
    const spooling: bool      // a multipart body goes to a spool file
    const contentLength: nat
    const uploadLimit: nat    // upload limit plus request overhead

    var readBuf: string       // mirror of the ring, with a terminator
    var readIdx: nat
    var checkedIdx: nat
    var bodyStartIdx: nat
    var startLine: nat

    var chunkState: ChunkState
    var chunkedParseIdx: nat
    var chunkSize: nat
    var chunkBytesRead: nat
    var requestBody: string
    var chunkedBodyBytesReceived: nat
    var spool: string
    var streamBodyBytesReceived: nat

    ghost const headerSize: nat
    ghost var stream: string

    // ---------- Abstraction and invariant ----------

    ghost function Phase(): Phase
      reads this`chunkState, this`chunkSize, this`chunkBytesRead
    {
      match chunkState
      case StateSize => Size
      case StateData => Data(if chunkSize >= chunkBytesRead then chunkSize - chunkBytesRead else 0)
      case StateDataCrlf => DataCrlf
      case StateTrailer => Trailer
      case StateDone => Trailer
    }

    ghost function Body(): string
      reads this`spool, this`requestBody
    {
      if spooling then spool else requestBody
    }

    ghost function Limit(): nat
    {
      if spooling then uploadLimit else READ_BUFFER_MAX_SIZE
    }

    /** The ring and the counters, whether or not the mirror is up to date. */
    ghost predicate RingOk()
      reads this, ring, ring.buffer
    {
      && ring.Valid() && ring.buffer.Length <= READ_BUFFER_MAX_SIZE && IsCapacity(ring.buffer.Length)
      && bodyStartIdx <= ring.size && chunkedParseIdx <= ring.size
      && streamBodyBytesReceived == |spool|
      && chunkedBodyBytesReceived == (if chunked then |requestBody| else 0)
      && (if chunked then contentLength == 0 else chunkedParseIdx == 0)
    }

    ghost predicate Indexed()
      reads this, ring, ring.buffer
    {
      RingOk() && checkedIdx <= readIdx == ring.size < |readBuf|
    }

    ghost function Account(): Account
      reads this`chunkedParseIdx, this`bodyStartIdx, this`spool, this`requestBody
      reads this`chunkState, this`chunkSize, this`chunkBytesRead
    {
      if chunked then Chunked(chunkedParseIdx, Phase(), Body(), Limit())
      else if spooling then Spooled(bodyStartIdx, spool, contentLength)
      else Buffered(bodyStartIdx)
    }

    /** The fields account for every body byte received so far. */
    ghost predicate Accounted()
      requires RingOk()
      reads this, ring, ring.buffer
    {
      && (chunked ==> chunkState != StateDone && (chunkState.StateData? ==> chunkBytesRead < chunkSize))
      && ring.size <= headerSize + |stream|
      && Accounts(Account(), ring.Contents(), stream)
    }

    ghost predicate Valid()
      reads this, ring, ring.buffer
    {
      Indexed() && Accounted()
    }

    /** The unread part of the mirror is what the ring holds. */
    ghost predicate Synced()
      requires Indexed()
      reads this, ring, ring.buffer
    {
      var from := if chunked then chunkedParseIdx else bodyStartIdx;
      readBuf[from..readIdx] == ring.Contents()[from..]
    }

    /** The state the header parser leaves: its own bytes may be overwritten in the mirror, the body's are not. */
    constructor (capacity: nat, header: string, first: string, mirror: string, chunked: bool, spooling: bool,
                 contentLength: nat, uploadLimit: nat)
      requires header != "" && |header| + |first| <= capacity <= READ_BUFFER_MAX_SIZE && IsCapacity(capacity)
      requires chunked ==> contentLength == 0
      requires |mirror| == |header| + |first| + 1 && mirror[|header|..|header| + |first|] == first
      ensures Valid() && Synced() && stream == first && fresh(ring) && fresh(ring.buffer)
      ensures this.chunked == chunked && this.spooling == spooling
      ensures this.contentLength == contentLength && this.uploadLimit == uploadLimit && headerSize == |header|
    {
      var r := new Ring(capacity);
      var n := r.Append(header + first);
      assert r.Contents() == header + first;
      ring := r;
      this.chunked, this.spooling, this.contentLength, this.uploadLimit := chunked, spooling, contentLength, uploadLimit;
      readBuf, readIdx := mirror, |header| + |first|;
      checkedIdx, bodyStartIdx, startLine := |header|, |header|, |header|;
      chunkState, chunkedParseIdx, chunkSize, chunkBytesRead := StateSize, if chunked then |header| else 0, 0, 0;
      requestBody, chunkedBodyBytesReceived, spool, streamBodyBytesReceived := "", 0, "", 0;
      headerSize, stream := |header|, first;
      new;
      StartsValid(header, first);
    }

    lemma StartsValid(header: string, first: string)
      requires ring.Valid() && ring.buffer.Length <= READ_BUFFER_MAX_SIZE && IsCapacity(ring.buffer.Length)
      requires ring.Contents() == header + first
      requires chunked ==> contentLength == 0
      requires readIdx == |header| + |first| < |readBuf| && readBuf[|header|..readIdx] == first
      requires checkedIdx == bodyStartIdx == headerSize == |header| && stream == first
      requires chunkState == StateSize && chunkedParseIdx == if chunked then |header| else 0
      requires requestBody == "" && chunkedBodyBytesReceived == 0 && spool == "" && streamBodyBytesReceived == 0
      ensures Valid() && Synced()
    {
      assert ring.size == |header + first|;
      FirstAccount(header, first, contentLength, Limit());
    }

    // ---------- Mirror and ring ----------

    method SyncReadBuffer()
      requires ring.Valid()
      modifies this`readBuf, this`readIdx
      ensures readIdx == ring.size && |readBuf| >= readIdx + 1 && readBuf[..readIdx] == ring.Contents() && readBuf[readIdx] == '\0'
    {
      if |readBuf| < ring.size + 1 {
        readBuf := seq(ring.size + 1, _ => '\0');
      }
      var bytes := ring.Peek(ring.size);
      assert bytes == ring.Contents();
      readBuf := bytes + ['\0'] + readBuf[ring.size + 1..];
      readIdx := ring.size;
    }

    method CompactReadBufferPrefix(consumed: nat)
      requires Indexed()
      modifies this`readBuf, this`readIdx, this`checkedIdx, this`bodyStartIdx, this`startLine, ring, ring.buffer
      ensures ring.Valid() && ring.buffer == old(ring.buffer)
      ensures consumed == 0 ==> unchanged(this) && ring.Contents() == old(ring.Contents())
      ensures consumed > 0 ==>
                && ring.Contents() == old(ring.Contents())[Min(consumed, old(ring.size))..]
                && readIdx == ring.size < |readBuf| && readBuf[..readIdx] == ring.Contents()
                && checkedIdx == 0 && bodyStartIdx == 0 && startLine == 0
    {
      if consumed > 0 {
        var k := if consumed > ring.size then ring.size else consumed;
        SyncReadBuffer();
        MoveFront(k);
      }
    }

    /** The copy down of the unconsumed bytes, in the mirror and through it in the ring. */
    method MoveFront(k: nat)
      requires ring.Valid() && k <= readIdx == ring.size < |readBuf| && readBuf[..readIdx] == ring.Contents()
      modifies this`readBuf, this`readIdx, this`checkedIdx, this`bodyStartIdx, this`startLine, ring, ring.buffer
      ensures ring.Valid() && ring.buffer == old(ring.buffer)
      ensures ring.Contents() == old(ring.Contents())[k..]
      ensures readIdx == ring.size < |readBuf| && readBuf[..readIdx] == ring.Contents()
      ensures checkedIdx == 0 && bodyStartIdx == 0 && startLine == 0
    {
      ghost var all := ring.Contents();
      var remaining := readIdx - k;
      var moved := readBuf[k..readIdx];
      assert moved == all[k..];
      readBuf := moved + ['\0'] + readBuf[remaining + 1..];
      ring.Reset();
      if remaining > 0 {
        var r := ring.Append(readBuf[..remaining]);
      }
      readIdx := remaining;
      checkedIdx, bodyStartIdx, startLine := 0, 0, 0;
    }

    // ---------- The line scanner that also runs over bodies ----------

    /** Overwrites the CRLF that ends a line and goes on behind it. */
    method EndLine(at: nat)
      requires at + 2 <= readIdx <= |readBuf| && readBuf[at] == '\r' && readBuf[at + 1] == '\n'
      modifies this`readBuf, this`checkedIdx
      ensures readBuf == old(readBuf)[at := '\0'][at + 1 := '\0'] && checkedIdx == at + 2
      ensures old(readBuf)[at..at + 2] == CRLF && !AbsentBetween(old(readBuf[..readIdx]), CRLF, 0, readIdx + 1)
    {
      CrlfAt(readBuf[..readIdx], at);
      readBuf := readBuf[at := '\0'][at + 1 := '\0'];
      checkedIdx := at + 2;
    }

    method ToBreak()
      requires checkedIdx <= readIdx <= |readBuf|
      modifies this`checkedIdx
      ensures checkedIdx == FirstBreak(readBuf, old(checkedIdx), readIdx)
    {
      while checkedIdx < readIdx && readBuf[checkedIdx] != '\r' && readBuf[checkedIdx] != '\n'
        invariant old(checkedIdx) <= checkedIdx <= readIdx
        invariant FirstBreak(readBuf, checkedIdx, readIdx) == FirstBreak(readBuf, old(checkedIdx), readIdx)
      {
        checkedIdx := checkedIdx + 1;
      }
    }

    /** What the break at the scanner's position makes of the line. */
    method Judge() returns (status: LineStatus)
      requires checkedIdx <= readIdx < |readBuf| && (checkedIdx < readIdx ==> readBuf[checkedIdx] in CRLF)
      ensures status == LineAt(readBuf, checkedIdx, readIdx)
    {
      if checkedIdx == readIdx { return LineOpen; }
      if readBuf[checkedIdx] == '\r' {
        if checkedIdx + 1 == readIdx { return LineOpen; }
        return if readBuf[checkedIdx + 1] == '\n' then LineOk else LineBad;
      }
      if checkedIdx > 1 && readBuf[checkedIdx - 1] == '\r' { return LineOk; }
      return LineBad;
    }

    /** The first CR or LF from the scanner's position on decides; the CRLF of a line is overwritten with zeros. */
    method ParseLine() returns (status: LineStatus)
      requires readIdx < |readBuf| && checkedIdx <= readIdx
      modifies this`readBuf, this`checkedIdx
      ensures |readBuf| == old(|readBuf|) && old(checkedIdx) <= checkedIdx <= readIdx
      ensures status == LineAt(old(readBuf), FirstBreak(old(readBuf), old(checkedIdx), readIdx), readIdx)
      ensures if status.LineOk? then
                && old(checkedIdx) < checkedIdx && 2 <= checkedIdx
                && old(readBuf)[checkedIdx - 2..checkedIdx] == CRLF
                && checkedIdx - 2 <= FirstBreak(old(readBuf), old(checkedIdx), readIdx) <= checkedIdx - 1
                && readBuf == old(readBuf)[checkedIdx - 2 := '\0'][checkedIdx - 1 := '\0']
                && !AbsentBetween(old(readBuf[..readIdx]), CRLF, 0, readIdx + 1)
              else readBuf == old(readBuf) && checkedIdx == FirstBreak(old(readBuf), old(checkedIdx), readIdx)
    {
      ToBreak();
      status := Judge();
      if status == LineOk {
        EndLine(if readBuf[checkedIdx] == '\r' then checkedIdx else checkedIdx - 1);
      }
    }

    /** What the scan of a body by the line scanner amounts to. */
    method StrayScan() returns (status: LineStatus)
      requires readIdx < |readBuf| && checkedIdx <= readIdx
      modifies this`readBuf, this`checkedIdx
      ensures |readBuf| == old(|readBuf|) && old(checkedIdx) <= checkedIdx <= readIdx
      ensures status.LineOk? ==> checkedIdx > old(checkedIdx)
      ensures status.LineOk? ==> !AbsentBetween(old(readBuf[..readIdx]), CRLF, 0, readIdx + 1)
      ensures !status.LineOk? ==> readBuf == old(readBuf)
    {
      status := ParseLine();
    }

    // ---------- Body sinks ----------

    /** Spooling: refuses to go beyond the limit of the body. */
    method AppendStreamedBodyChunk(data: string) returns (ok: bool)
      requires streamBodyBytesReceived == |spool|
      modifies this`spool, this`streamBodyBytesReceived
      ensures ok <==> old(|spool|) + |data| <= if chunked then uploadLimit else contentLength
      ensures spool == if ok then old(spool) + data else old(spool)
      ensures streamBodyBytesReceived == |spool|
    {
      var limit := if chunked then uploadLimit else contentLength;
      if streamBodyBytesReceived + |data| > limit { return false; }
      spool := spool + data;
      streamBodyBytesReceived := streamBodyBytesReceived + |data|;
      return true;
    }

    method AppendDecodedBodyChunk(data: string) returns (code: Code)
      requires chunked && streamBodyBytesReceived == |spool| && chunkedBodyBytesReceived == |requestBody|
      modifies this`spool, this`streamBodyBytesReceived, this`requestBody, this`chunkedBodyBytesReceived
      ensures streamBodyBytesReceived == |spool| && chunkedBodyBytesReceived == |requestBody|
      ensures if data != "" && old(|Body()|) + |data| > Limit() then code == PayloadTooLarge
              else code == NoRequest && Body() == old(Body()) + data
    {
      code := NoRequest;
      if |data| <= 0 { return; }
      if spooling {
        var ok := AppendStreamedBodyChunk(data);
        if !ok { code := PayloadTooLarge; }
        return;
      }
      if chunkedBodyBytesReceived + |data| > READ_BUFFER_MAX_SIZE {
        code := PayloadTooLarge;
        return;
      }
      requestBody := requestBody + data;
      chunkedBodyBytesReceived := chunkedBodyBytesReceived + |data|;
    }

    /** Scans the mirror from `from` for CRLF, as both line-oriented chunk states do. */
    method FindLineEnd(from: nat) returns (lineEnd: nat)
      requires from <= readIdx < |readBuf|
      ensures from <= lineEnd
      ensures lineEnd + 1 < readIdx ==> Find(readBuf[from..readIdx], CRLF, 0) == lineEnd - from
      ensures lineEnd + 1 >= readIdx ==> Find(readBuf[from..readIdx], CRLF, 0) == -1
    {
      ghost var input := readBuf[from..readIdx];
      lineEnd := from;
      while lineEnd + 1 < readIdx && !(readBuf[lineEnd] == '\r' && readBuf[lineEnd + 1] == '\n')
        invariant from <= lineEnd && (lineEnd > from ==> lineEnd < readIdx)
        invariant forall j: nat :: j < lineEnd - from ==> !OccursAt(input, CRLF, j)
      {
        CrlfAt(input, lineEnd - from);
        assert input[lineEnd - from] == readBuf[lineEnd] && input[lineEnd + 1 - from] == readBuf[lineEnd + 1];
        assert !OccursAt(input, CRLF, lineEnd - from);
        lineEnd := lineEnd + 1;
      }
      if lineEnd + 1 < readIdx {
        CrlfAt(input, lineEnd - from);
        FindIs(input, CRLF, 0, lineEnd - from);
      } else {
        forall j: nat ensures !OccursAt(input, CRLF, j) { CrlfAt(input, j); }
        FindIs(input, CRLF, 0, -1);
      }
    }

    // ---------- The chunk decoder ----------

    /** What decoding the unread part of the mirror from here on gives. */
    ghost function Pending(): Decoded
      requires chunkedParseIdx <= readIdx < |readBuf|
      reads this
    {
      Decode(Phase(), readBuf[chunkedParseIdx..readIdx], Body(), Limit())
    }

    ghost predicate Decoding()
      reads this
    {
      && chunked && chunkedParseIdx <= readIdx < |readBuf|
      && streamBodyBytesReceived == |spool| && chunkedBodyBytesReceived == |requestBody|
      && chunkState != StateDone && (chunkState.StateData? ==> chunkBytesRead < chunkSize)
    }

    /** The bytes the mirror holds for the decoder. */
    ghost function Input(): string
      requires chunkedParseIdx <= readIdx < |readBuf|
      reads this
    {
      readBuf[chunkedParseIdx..readIdx]
    }

    /** One round of the loop is one turn of the decoder on the unread part of the mirror. */
    twostate predicate RoundOk(r: Round)
      reads this
    {
      && old(Decoding()) && old(chunkedParseIdx < readIdx) && readIdx == old(readIdx) && readBuf == old(readBuf)
      && var turn := TurnOf(old(Phase()), old(Input()), old(Body()), Limit());
         var used := chunkedParseIdx - old(chunkedParseIdx);
         match r
         case Continue => Decoding() && used >= 0 && turn == Advance(Phase(), used, Body())
         case Starved => Decoding() && used >= 0 && turn == Wait(Phase(), used, Body())
         case Return(code) =>
           turn.Halt? && code == CodeOf(turn.result) && (turn.result.Finished? ==> Body() == turn.result.body)
    }

    method RoundSize() returns (r: Round)
      requires Decoding() && chunkState == StateSize && chunkedParseIdx < readIdx
      modifies this`chunkState, this`chunkSize, this`chunkBytesRead, this`chunkedParseIdx
      ensures RoundOk(r)
    {
      var lineEnd := FindLineEnd(chunkedParseIdx);
      if lineEnd + 1 >= readIdx {
        r := Starved;
      } else {
        r := AfterSizeLine(lineEnd);
      }
    }

    method AfterSizeLine(lineEnd: nat) returns (r: Round)
      requires Decoding() && chunkState == StateSize && chunkedParseIdx <= lineEnd < readIdx - 1
      requires Find(Input(), CRLF, 0) == lineEnd - chunkedParseIdx
      modifies this`chunkState, this`chunkSize, this`chunkBytesRead, this`chunkedParseIdx
      ensures RoundOk(r)
    {
      SliceSplit(readBuf, chunkedParseIdx, lineEnd - chunkedParseIdx, readIdx);
      SizeTurn(Input(), Body(), Limit());
      var ok, size := ParseChunkSizeLine(readBuf[chunkedParseIdx..lineEnd]);
      if ok {
        EnterChunk(size, lineEnd + 2);
        r := Continue;
      } else {
        r := Return(BadRequestCode);
      }
    }

    method EnterChunk(size: nat, next: nat)
      requires Decoding() && chunkState == StateSize && next <= readIdx
      modifies this`chunkState, this`chunkSize, this`chunkBytesRead, this`chunkedParseIdx
      ensures Decoding() && chunkedParseIdx == next && Phase() == if size == 0 then Trailer else Data(size)
    {
      chunkSize := size;
      chunkedParseIdx := next;
      chunkBytesRead := 0;
      chunkState := if chunkSize == 0 then StateTrailer else StateData;
    }

    method RoundData() returns (r: Round)
      requires Decoding() && chunkState == StateData && chunkedParseIdx < readIdx
      modifies this`chunkState, this`chunkBytesRead, this`chunkedParseIdx
      modifies this`spool, this`streamBodyBytesReceived, this`requestBody, this`chunkedBodyBytesReceived
      ensures RoundOk(r)
    {
      var available := readIdx - chunkedParseIdx;
      var remaining := chunkSize - chunkBytesRead;
      var len := if available < remaining then available else remaining;
      SliceSplit(readBuf, chunkedParseIdx, len, readIdx);
      var code := AppendDecodedBodyChunk(readBuf[chunkedParseIdx..chunkedParseIdx + len]);
      if code != NoRequest { return Return(code); }
      chunkedParseIdx := chunkedParseIdx + len;
      chunkBytesRead := chunkBytesRead + len;
      if chunkBytesRead < chunkSize { return Starved; }
      chunkState := StateDataCrlf;
      return Continue;
    }

    method RoundDataCrlf() returns (r: Round)
      requires Decoding() && chunkState == StateDataCrlf && chunkedParseIdx < readIdx
      modifies this`chunkState, this`chunkedParseIdx
      ensures RoundOk(r)
    {
      ghost var input := Input();
      assert |input| == readIdx - chunkedParseIdx && Phase() == DataCrlf;
      if readIdx - chunkedParseIdx < 2 { return Starved; }
      assert input[0] == readBuf[chunkedParseIdx] && input[1] == readBuf[chunkedParseIdx + 1];
      if readBuf[chunkedParseIdx] != '\r' || readBuf[chunkedParseIdx + 1] != '\n' { return Return(BadRequestCode); }
      chunkedParseIdx := chunkedParseIdx + 2;
      chunkState := StateSize;
      return Continue;
    }

    method RoundTrailer() returns (r: Round)
      requires Decoding() && chunkState == StateTrailer && chunkedParseIdx < readIdx
      modifies this`chunkState, this`chunkedParseIdx
      ensures RoundOk(r)
    {
      var lineEnd := FindLineEnd(chunkedParseIdx);
      if lineEnd + 1 >= readIdx { return Starved; }
      if lineEnd == chunkedParseIdx {
        chunkedParseIdx := chunkedParseIdx + 2;
        chunkState := StateDone;
        return Return(GetRequest);
      }
      chunkedParseIdx := lineEnd + 2;
      return Continue;
    }

    method OneRound() returns (r: Round)
      requires Decoding() && chunkedParseIdx < readIdx
      modifies this`chunkState, this`chunkSize, this`chunkBytesRead, this`chunkedParseIdx
      modifies this`spool, this`streamBodyBytesReceived, this`requestBody, this`chunkedBodyBytesReceived
      ensures RoundOk(r)
    {
      match chunkState {
        case StateSize => r := RoundSize();
        case StateData => r := RoundData();
        case StateDataCrlf => r := RoundDataCrlf();
        case StateTrailer => r := RoundTrailer();
      }
    }

    /** One round, seen from what is still to be decoded. */
    method PendingRound() returns (r: Round)
      requires Decoding() && chunkedParseIdx < readIdx
      modifies this`chunkState, this`chunkSize, this`chunkBytesRead, this`chunkedParseIdx
      modifies this`spool, this`streamBodyBytesReceived, this`requestBody, this`chunkedBodyBytesReceived
      ensures match r
              case Continue => Decoding() && old(chunkedParseIdx) < chunkedParseIdx && Pending() == old(Pending())
              case Starved =>
                && Decoding() && old(chunkedParseIdx) <= chunkedParseIdx
                && old(Pending()) == NeedMore(Phase(), Input(), Body())
              case Return(code) =>
                code == CodeOf(old(Pending())) && (code.GetRequest? ==> Body() == old(Pending()).body) && !code.NoRequest?
    {
      ghost var from, phase, input, body := chunkedParseIdx, Phase(), Input(), Body();
      r := OneRound();
      if r.Return? {
        DecodeHalt(phase, input, body, Limit());
      } else {
        ghost var used := chunkedParseIdx - from;
        SliceSplit(readBuf, from, used, readIdx);
        if r.Continue? {
          DecodeAdvance(phase, input, body, Limit(), Phase(), used, Body(), Input());
        } else {
          DecodeWait(phase, input, body, Limit(), Phase(), used, Body(), Input());
        }
      }
    }

    /** The chunk loop: what it has decoded plus what it has left is what it was given. */
    method ChunkRounds() returns (code: Code)
      requires Decoding()
      modifies this`chunkState, this`chunkSize, this`chunkBytesRead, this`chunkedParseIdx
      modifies this`spool, this`streamBodyBytesReceived, this`requestBody, this`chunkedBodyBytesReceived
      ensures code == CodeOf(old(Pending()))
      ensures code.GetRequest? ==> Body() == old(Pending()).body
      ensures code.NoRequest? ==>
                && Decoding() && chunkedParseIdx >= old(chunkedParseIdx)
                && old(Pending()) == NeedMore(Phase(), readBuf[chunkedParseIdx..readIdx], Body())
    {
      ghost var goal := Pending();
      while chunkedParseIdx < readIdx
        invariant Decoding() && Pending() == goal && old(chunkedParseIdx) <= chunkedParseIdx
        decreases readIdx - chunkedParseIdx
      {
        var round := PendingRound();
        match round {
          case Continue =>
          case Starved => return NoRequest;
          case Return(c) => return c;
        }
      }
      return NoRequest;
    }

    /** When it asks for more, no complete line is left in the buffer. */
    method ParseChunkedContent() returns (code: Code)
      requires chunked && Valid() && Synced()
      modifies this`chunkState, this`chunkSize, this`chunkBytesRead, this`chunkedParseIdx
      modifies this`spool, this`streamBodyBytesReceived, this`requestBody, this`chunkedBodyBytesReceived
      modifies this`readBuf, this`readIdx, this`checkedIdx, this`bodyStartIdx, this`startLine, ring, ring.buffer
      ensures ring.buffer == old(ring.buffer)
      ensures code == CodeOf(Decode(Size, stream, "", Limit()))
      ensures code.GetRequest? ==> Body() == Decode(Size, stream, "", Limit()).body
      ensures code.NoRequest? ==>
                && Valid() && chunkedParseIdx == 0
                && readBuf[..readIdx] == ring.Contents() && Find(readBuf[..readIdx], CRLF, 0) == -1
    {
      ghost var all, from := ring.Contents(), chunkedParseIdx;
      assert Pending() == Decode(Size, stream, "", Limit());
      code := ChunkRounds();
      if code == NoRequest {
        WaitingState(stream, Phase(), readBuf[chunkedParseIdx..readIdx], Body(), Limit());
        SliceOfSlice(readBuf, all, from, chunkedParseIdx, readIdx);
        DiscardParsed();
      }
    }

    /** Drops the parsed prefix from ring and mirror. */
    method DiscardParsed()
      requires chunked && Valid() && Synced()
      modifies this`chunkedParseIdx
      modifies this`readBuf, this`readIdx, this`checkedIdx, this`bodyStartIdx, this`startLine, ring, ring.buffer
      ensures Valid() && ring.buffer == old(ring.buffer) && chunkedParseIdx == 0
      ensures readBuf[..readIdx] == ring.Contents() == old(readBuf[chunkedParseIdx..readIdx])
    {
      ghost var all, k := ring.Contents(), chunkedParseIdx;
      DropParsed(k, Phase(), Body(), Limit(), all, stream);
      assert all[0..] == all && readBuf[0..readIdx] == readBuf[..readIdx];
      CompactReadBufferPrefix(chunkedParseIdx);
      assert ring.Contents() == all[k..];
      chunkedParseIdx := 0;
    }

    // ---------- Bodies of known length ----------

    method ResetStreamedBodyBuffer()
      requires ring.buffer.Length > 0 && |readBuf| > 0
      modifies this`readIdx, this`checkedIdx, this`bodyStartIdx, this`startLine, this`readBuf, ring
      ensures ring.Valid() && ring.buffer == old(ring.buffer) && ring.Contents() == ""
      ensures readIdx == 0 && checkedIdx == 0 && bodyStartIdx == 0 && startLine == 0 && |readBuf| == old(|readBuf|)
    {
      ring.Reset();
      readIdx, checkedIdx, bodyStartIdx, startLine := 0, 0, 0, 0;
      readBuf := readBuf[0 := '\0'];
    }

    /** Moves what the body still needs from the mirror to the spool file and empties the buffer. */
    method SpoolAvailable()
      requires !chunked && spooling && Valid() && Synced()
      modifies this`spool, this`streamBodyBytesReceived
      modifies this`readIdx, this`checkedIdx, this`bodyStartIdx, this`startLine, this`readBuf, ring
      ensures Valid() && Synced() && ring.buffer == old(ring.buffer)
      ensures spool == stream[..Min(|stream|, contentLength)]
      ensures old(bodyStartIdx == readIdx) ==> readIdx == old(readIdx) && checkedIdx == old(checkedIdx)
    {
      var available := readIdx - bodyStartIdx;
      var remaining := contentLength - streamBodyBytesReceived;
      var len := if available > remaining then remaining else available;
      if len > 0 {
        var ok := AppendStreamedBodyChunk(readBuf[bodyStartIdx..bodyStartIdx + len]);
        assert ok;
        SliceSplit(readBuf, bodyStartIdx, len, readIdx);
        assert old(spool) + readBuf[bodyStartIdx..readIdx] == stream;
        PrefixGrows(old(spool), readBuf[bodyStartIdx..readIdx], len, stream);
        ResetStreamedBodyBuffer();
      }
    }

    /** Runs after every receive while a body is being spooled; does nothing for a chunked body. */
    method FlushStreamedBody()
      requires spooling && RingOk() && Accounted() && checkedIdx <= ring.size
      modifies this`spool, this`streamBodyBytesReceived
      modifies this`readIdx, this`checkedIdx, this`bodyStartIdx, this`startLine, this`readBuf, ring
      ensures Valid() && Synced() && ring.buffer == old(ring.buffer)
    {
      SyncReadBuffer();
      SyncedSlice(readBuf, ring.Contents(), readIdx);
      if !chunked {
        SpoolAvailable();
      }
    }

    /** Grows a full ring; fails exactly when it has its maximal size. */
    method MakeRoom() returns (ok: bool)
      requires RingOk() && Accounted() && ring.size == ring.buffer.Length
      modifies ring
      ensures RingOk() && Accounted() && ring.size == old(ring.size)
      ensures if ok then ring.size < ring.buffer.Length else ring.size == READ_BUFFER_MAX_SIZE && ring.buffer == old(ring.buffer)
      ensures ok ==> fresh(ring.buffer) && ring.buffer.Length > old(ring.buffer.Length)
    {
      ghost var all := ring.Contents();
      ok := ring.EnsureCapacity(ring.buffer.Length * 2);
      assert ring.Contents() == all && ring.size == |all|;
    }

    /** A receive call that returns bytes. */
    method ReceiveBytes(waiting: string, limit: nat) returns (n: nat)
      requires waiting != "" && limit > 0 && RingOk() && Accounted() && ring.size < ring.buffer.Length
      modifies ring, ring.buffer
      ensures 0 < n <= |waiting| && RingOk() && ring.buffer == old(ring.buffer)
      ensures ring.size == old(ring.size) + n && Accounts(Account(), ring.Contents(), stream + waiting[..n])
    {
      ghost var before, account := ring.Contents(), Account();
      var got, _ := ring.Receive(waiting, Bytes(limit), EAGAIN);
      n := got;
      MoreBytes(account, before, stream, waiting[..n]);
    }

    method ReceiveSome(data: string, i: nat, limit: nat, ghost earlier: string) returns (next: nat)
      requires i < |data| && limit > 0 && RingOk() && Accounted() && checkedIdx <= ring.size < ring.buffer.Length
      requires stream == earlier + data[..i]
      modifies this`stream, ring, ring.buffer
      ensures i < next <= |data| && RingOk() && Accounted() && checkedIdx <= ring.size
      ensures stream == earlier + data[..next] && ring.buffer == old(ring.buffer)
    {
      var n := ReceiveBytes(data[i..], limit);
      next := i + n;
      NextPiece(earlier, data, i, n);
      Note(stream + data[i..][..n]);
    }

    /** Receives some bytes and, while a body is being spooled, passes them on. */
    method TakeIn(data: string, i: nat, limit: nat, ghost earlier: string) returns (next: nat)
      requires i < |data| && limit > 0 && Midway(earlier, data, i) && ring.size < ring.buffer.Length
      modifies this`stream, this`spool, this`streamBodyBytesReceived
      modifies this`readIdx, this`checkedIdx, this`bodyStartIdx, this`startLine, this`readBuf, ring, ring.buffer
      ensures i < next <= |data| && Midway(earlier, data, next) && ring.buffer == old(ring.buffer)
    {
      next := ReceiveSome(data, i, limit, earlier);
      if spooling {
        FlushStreamedBody();
      }
    }

    /** Half way through a read event. */
    ghost predicate Midway(earlier: string, data: string, i: nat)
      reads this, ring, ring.buffer
    {
      i <= |data| && RingOk() && Accounted() && checkedIdx <= ring.size && stream == earlier + data[..i] && (i == 0 ==> Indexed())
    }

    /** A read event over `data` ended for the reasons of its mode, and exactly at the guard of the buffer if cut for it. */
    ghost predicate EndedBy(mode: Mode, event: Event, data: string, end: End, taken: nat, calls: nat)
      reads this, ring
    {
      && EndsFor(mode, event.(data := data), end, Count(taken, calls))
      && (end == Cut(ByBuffer) <==> BufferCuts(mode, event.stale, Count(taken, calls)))
    }

    ghost function Count(taken: nat, calls: nat): Tally
      reads this, ring
    {
      Tally(taken, calls, ring.size, ring.buffer.Length, spooling)
    }

    /**
     A read event in level-triggered mode.  The ring grows once at most, before the first receive; when it
     fills up later, the error number left over from earlier calls decides.
     */
    method ReadLevel(event: Event) returns (end: End, taken: nat, calls: nat)
      requires Valid() && LimitsPositive(event.answers)
      modifies this, ring, ring.buffer
      ensures Midway(old(stream), event.data, taken) && (ring.buffer == old(ring.buffer) || fresh(ring.buffer))
      ensures EndsFor(Level, event, end, Count(taken, calls))
    {
      end, taken, calls := Open, 0, 0;
      assert stream == old(stream) + event.data[..0];
      var k, going := 0, true;
      if ring.size == ring.buffer.Length {
        going := MakeRoom();
        if !going { end := Cut(ByBuffer); }
      }
      while going
        invariant k <= |event.answers| && Midway(old(stream), event.data, taken)
        invariant ring.buffer == old(ring.buffer) || fresh(ring.buffer)
        invariant going && taken == 0 ==> ring.size < ring.buffer.Length
        invariant !going ==> EndsFor(Level, event, end, Count(taken, calls))
        decreases going, |event.data| - taken, |event.answers| - k
      {
        if ring.size == ring.buffer.Length {
          end, going := OnStale(event.stale), false;
        } else if taken == |event.data| {
          end, going := Open, false;
        } else {
          var answer := AnswerAt(event, k);
          if k < |event.answers| { k := k + 1; }
          if answer.Bytes? {
            taken := TakeIn(event.data, taken, answer.limit, old(stream));
            calls := calls + 1;
          } else {
            going := answer == Failed(EINTR);
            end := if answer == Failed(EAGAIN) then Open else Cut(ByNetwork);
          }
        }
      }
    }

    /**
     A read event in edge-triggered mode.  The ring grows whenever it is full; at its maximal size the
     connection is cut, except for a spooled body that filled it in this event: its flush frees nothing then
     and is tried for ever.
     */
    method ReadEdge(event: Event) returns (end: End, taken: nat, calls: nat)
      requires Valid() && LimitsPositive(event.answers)
      modifies this, ring, ring.buffer
      ensures Midway(old(stream), event.data, taken) && (ring.buffer == old(ring.buffer) || fresh(ring.buffer))
      ensures EndsFor(Edge, event, end, Count(taken, calls))
    {
      end, taken, calls := Open, 0, 0;
      assert stream == old(stream) + event.data[..0];
      var k, going := 0, true;
      while going
        invariant k <= |event.answers| && Midway(old(stream), event.data, taken)
        invariant ring.buffer == old(ring.buffer) || fresh(ring.buffer)
        invariant going ==> calls < ET_READ_EVENT_MAX_RECVS
        invariant !going ==> EndsFor(Edge, event, end, Count(taken, calls))
        decreases going, |event.data| - taken, |event.answers| - k, READ_BUFFER_MAX_SIZE - ring.buffer.Length
      {
        if ring.size == ring.buffer.Length {
          going := MakeRoom();
          end := if spooling && taken > 0 then Spinning else Cut(ByBuffer);
        } else if taken == |event.data| {
          end, going := if taken > 0 then Open else Cut(ByNetwork), false;
        } else {
          var answer := AnswerAt(event, k);
          if k < |event.answers| { k := k + 1; }
          if answer.Bytes? {
            taken := TakeIn(event.data, taken, answer.limit, old(stream));
            calls := calls + 1;
            end, going := Open, calls < ET_READ_EVENT_MAX_RECVS;
          } else {
            going := answer == Failed(EINTR);
            end := if answer == Failed(EAGAIN) && taken > 0 then Open else Cut(ByNetwork);
          }
        }
      }
    }

    /** One read event in either mode: what was received is in the ring, and the mirror agrees. */
    method ReadOnce(mode: Mode, event: Event) returns (end: End, taken: nat, calls: nat)
      requires Valid() && LimitsPositive(event.answers)
      modifies this, ring, ring.buffer
      ensures taken <= |event.data| && stream == old(stream) + event.data[..taken]
      ensures end.Open? ==> Valid() && (taken > 0 ==> Synced())
      ensures RingOk() && Accounted() && (ring.buffer == old(ring.buffer) || fresh(ring.buffer))
      ensures EndsFor(mode, event, end, Count(taken, calls))
      ensures end == Cut(ByBuffer) <==> BufferCuts(mode, event.stale, Count(taken, calls))
    {
      if mode == Level {
        end, taken, calls := ReadLevel(event);
      } else {
        end, taken, calls := ReadEdge(event);
      }
      CutByBufferIff(mode, event, end, Count(taken, calls));
      if end.Open? && taken > 0 { SyncReceived(); }
    }

    method SyncReceived()
      requires RingOk() && Accounted() && checkedIdx <= ring.size
      modifies this`readBuf, this`readIdx
      ensures Valid() && Synced()
    {
      SyncReadBuffer();
      SyncedSlice(readBuf, ring.Contents(), readIdx);
    }

    /** Extends the ghost record of the stream. */
    ghost method Note(extended: string)
      requires RingOk() && ring.size <= headerSize + |extended| && Accounts(Account(), ring.Contents(), extended)
      requires chunked ==> chunkState != StateDone && (chunkState.StateData? ==> chunkBytesRead < chunkSize)
      modifies this`stream
      ensures stream == extended && RingOk() && Accounted()
    {
      ghost var account := Account();
      stream := extended;
      assert Account() == account;
    }

    // ---------- The parser loop ----------

    method ParseKnownLength() returns (code: Code)
      requires !chunked && Valid() && ((|stream| < contentLength && !spooling) || Synced())
      modifies this`requestBody, this`spool, this`streamBodyBytesReceived
      modifies this`readIdx, this`checkedIdx, this`bodyStartIdx, this`startLine, this`readBuf, ring
      ensures ring.buffer == old(ring.buffer)
      ensures code == if |stream| >= contentLength then GetRequest else NoRequest
      ensures code.GetRequest? ==> Body() == stream[..contentLength]
      ensures code.NoRequest? ==> Valid() && (spooling ==> bodyStartIdx == readIdx)
      ensures code.NoRequest? && !spooling ==> readIdx == old(readIdx) && checkedIdx == old(checkedIdx)
      ensures code.NoRequest? && old(bodyStartIdx == readIdx) ==> readIdx == old(readIdx) && checkedIdx == old(checkedIdx)
    {
      code := NoRequest;
      if spooling {
        SpoolAvailable();
        if streamBodyBytesReceived >= contentLength { code := GetRequest; }
      } else if readIdx >= bodyStartIdx + contentLength {
        TerminatorOutside(readBuf, bodyStartIdx, contentLength, readIdx);
        readBuf := readBuf[bodyStartIdx + contentLength := '\0'];
        requestBody := readBuf[bodyStartIdx..bodyStartIdx + contentLength];
        code := GetRequest;
      }
    }

    ghost function HeaderFraming(): Framing { Framing(chunked, contentLength, Limit()) }

    /** The status and the body are those of the bytes received, and an incomplete body can go on. */
    ghost predicate Reports(code: Code)
      reads this, ring, ring.buffer
    {
      && code == Outcome(HeaderFraming(), stream)
      && (code.GetRequest? ==> Body() == OutcomeBody(HeaderFraming(), stream))
      && (code.NoRequest? ==> Valid())
    }

    /**
     One run of the parser over what has been read.  The status and the body depend on the bytes of the
     stream alone, although an incomplete body is also scanned for header lines, which overwrites every
     CRLF of it in the mirror.
     */
    method ProcessRead() returns (code: Code)
      requires Valid() && Synced()
      modifies this, ring, ring.buffer
      ensures stream == old(stream) && ring.buffer == old(ring.buffer)
      ensures Reports(code)
    {
      if chunked {
        code := ParseChunkedContent();
        if code == NoRequest { ScanChunked(); }
      } else {
        code := ParseKnownLength();
        if code == NoRequest { ScanKnownLength(); }
      }
    }

    /** A read event: receive what is there, then parse. */
    method OnReadable(mode: Mode, event: Event) returns (end: End, taken: nat, code: Code, calls: nat)
      requires Reports(NoRequest) && event.data != "" && LimitsPositive(event.answers)
      modifies this, ring, ring.buffer
      ensures taken <= |event.data| && stream == old(stream) + event.data[..taken]
      ensures end.Open? ==> Reports(code)
      ensures ring.buffer == old(ring.buffer) || fresh(ring.buffer)
      ensures end.Open? || EndedBy(mode, event, event.data, end, taken, calls)
      ensures mode.Edge? && end == Cut(ByBuffer) ==> headerSize + |stream| >= READ_BUFFER_MAX_SIZE
      ensures end == Cut(ByNetwork) ==> NetworkFails(event.answers) || (mode.Edge? && Failed(EAGAIN) in event.answers)
    {
      code := NoRequest;
      end, taken, calls := ReadOnce(mode, event);
      if end.Open? {
        if taken > 0 { code := ProcessRead(); } else { assert stream == old(stream); }
      }
    }

    /** The stray line scan over an incomplete chunked body finds no line to overwrite. */
    method ScanChunked()
      requires chunked && Valid() && chunkedParseIdx == 0
      requires readBuf[..readIdx] == ring.Contents() && Find(readBuf[..readIdx], CRLF, 0) == -1
      modifies this`readBuf, this`checkedIdx
      ensures Valid()
    {
      FindFacts(readBuf[..readIdx], CRLF, 0);
      var status := StrayScan();
      assert status != LineOk;
    }

    /** The stray line scan over an incomplete body of known length, and the fruitless parses between. */
    method ScanKnownLength()
      requires !chunked && Valid() && |stream| < contentLength && (spooling ==> bodyStartIdx == readIdx)
      modifies this`requestBody, this`spool, this`streamBodyBytesReceived
      modifies this`readIdx, this`checkedIdx, this`bodyStartIdx, this`startLine, this`readBuf, ring
      ensures Valid() && ring.buffer == old(ring.buffer)
    {
      var status := StrayScan();
      while status == LineOk
        invariant Valid() && |stream| < contentLength && (spooling ==> bodyStartIdx == readIdx)
        invariant ring.buffer == old(ring.buffer)
        decreases readIdx - checkedIdx, if status == LineOk then 1 else 0
      {
        var code := ParseKnownLength();
        status := StrayScan();
      }
    }
  }
}
