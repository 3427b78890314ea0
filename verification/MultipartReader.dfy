/** The streaming multipart reader over a spool file: a buffer that is refilled in pieces of any size. */
module MultipartReader {
  import opened Text
  import opened FileNames
  import opened Multipart

  /** Where a part's bytes go: a form field in memory or a temporary file.  Both count and both have a limit. */
  class Sink {
    const limit: nat
    var value: string
    var limitExceeded: bool

    constructor (limit: nat)
      ensures this.limit == limit && value == "" && !limitExceeded
    {
      this.limit, value, limitExceeded := limit, "", false;
    }

    method Write(data: string) returns (ok: bool)
      modifies this
      ensures ok <==> old(|value|) + |data| <= limit
      ensures if ok then value == old(value) + data && limitExceeded == old(limitExceeded)
              else value == old(value) && limitExceeded
    {
      if |value| + |data| > limit {
        limitExceeded := true;
        return false;
      }
      value := value + data;
      return true;
    }
  }

  lemma SplitBehind(sofar: string, stream: string, at: nat, n: nat)
    requires at + n <= |stream|
    ensures (sofar + stream)[..|sofar| + at] == sofar + stream[..at]
    ensures (sofar + stream)[|sofar| + at + n..] == stream[at + n..]
  {
  }

  lemma PartAt(all: string, delimiter: string, limit: nat, at: nat)
    requires Find(all, delimiter, 0) == at
    ensures PartOf(all, delimiter, limit)
            == if at > limit then PartTooLarge else AfterDelimiter(all[..at], all[at + |delimiter|..])
  {
  }

  /** A delimiter found in the remaining stream is the first one of the part. */
  lemma PartInStream(all: string, sofar: string, stream: string, delimiter: string, limit: nat, at: nat)
    requires all == sofar + stream && Find(stream, delimiter, 0) == at && AbsentBetween(all, delimiter, 0, |sofar|)
    ensures PartOf(all, delimiter, limit)
            == if |sofar| + at > limit then PartTooLarge
               else AfterDelimiter(sofar + stream[..at], stream[at + |delimiter|..])
  {
    FindBehind(sofar, stream, delimiter);
    PartAt(all, delimiter, limit, |sofar| + at);
    SplitBehind(sofar, stream, at, |delimiter|);
  }

  /** No delimiter starts inside the bytes that are flushed. */
  lemma FlushedPrefix(sofar: string, buffer: string, rest: string, delimiter: string, flush: nat)
    requires Find(buffer, delimiter, 0) < 0 && flush + |delimiter| == |buffer| && delimiter != ""
    requires AbsentBetween(sofar + (buffer + rest), delimiter, 0, |sofar|)
    ensures AbsentBetween(sofar + (buffer + rest), delimiter, 0, |sofar| + flush)
  {
    FindFacts(buffer, delimiter, 0);
    AbsentInPrefix(buffer, rest, delimiter, flush);
    AbsentInSuffix(sofar, buffer + rest, delimiter, flush);
    AbsentJoin(sofar + (buffer + rest), delimiter, 0, |sofar|, |sofar| + flush);
  }

  lemma FlushedRegroup(sofar: string, buffer: string, rest: string, flush: nat)
    requires flush <= |buffer|
    ensures (sofar + buffer[..flush]) + (buffer[flush..] + rest) == sofar + (buffer + rest)
  {
  }

  lemma NoneInTail(buffer: string, delimiter: string, flush: nat)
    requires Find(buffer, delimiter, 0) < 0 && flush <= |buffer|
    ensures Find(buffer[flush..], delimiter, 0) < 0
  {
    FindFacts(buffer, delimiter, 0);
    FindFacts(buffer[flush..], delimiter, 0);
    var r := Find(buffer[flush..], delimiter, 0);
    if r >= 0 {
      assert buffer[..flush] + buffer[flush..] == buffer;
      OccursInSuffix(buffer[..flush], buffer[flush..], delimiter, flush + r);
    }
  }

  /** More bytes than the limit before any delimiter can start: the part is too large, terminated or not. */
  lemma TooLargeAlready(all: string, n: nat, delimiter: string, limit: nat)
    requires n + |delimiter| <= |all| && n > limit && AbsentBetween(all, delimiter, 0, n)
    ensures PartOf(all, delimiter, limit) == PartTooLarge
  {
    FindFacts(all, delimiter, 0);
  }

  /** What reading a part reports, against what the part is. */
  ghost predicate Agrees(part: Part, ok: bool, isFinal: bool, value: string, exceeded: bool, stream: string) {
    match part
    case PartOk(content, final, more) => ok && isFinal == final && value == content && !exceeded && (!final ==> stream == more)
    case PartTooLarge => !ok && exceeded
    case PartBad => !ok && !exceeded
  }

  ghost predicate DecidedBy(part: Part, status: int, isFinal: bool, stream: string) {
    match part
    case PartOk(_, final, more) => status == 1 && isFinal == final && (!final ==> stream == more)
    case PartBad => status == 0
    case PartTooLarge => false
  }

  lemma AgreesAfter(content: string, tail: string, status: int, isFinal: bool, stream: string)
    requires DecidedBy(AfterDelimiter("", tail), status, isFinal, stream)
    ensures Agrees(AfterDelimiter(content, tail), status == 1, isFinal, content, false, stream)
  {
  }

  /** A delimiter at `at` of the remaining stream was consumed: what the sink and the reader hold then. */
  ghost predicate Consumed(sofar: string, stream: string, delimiter: string, limit: nat, status: int, isFinal: bool,
                           value: string, exceeded: bool, after: string)
  {
    var at := Find(stream, delimiter, 0);
    && at >= 0
    && if |sofar| + at > limit then status == 0 && exceeded
       else
         && value == sofar + stream[..at] && !exceeded
         && DecidedBy(AfterDelimiter("", stream[at + |delimiter|..]), status, isFinal, after)
  }

  lemma ConsumedAgrees(all: string, sofar: string, stream: string, delimiter: string, limit: nat, status: int, isFinal: bool,
                       value: string, exceeded: bool, after: string)
    requires all == sofar + stream && AbsentBetween(all, delimiter, 0, |sofar|)
    requires Consumed(sofar, stream, delimiter, limit, status, isFinal, value, exceeded, after)
    ensures Agrees(PartOf(all, delimiter, limit), status == 1, isFinal, value, exceeded, after)
  {
    var at := Find(stream, delimiter, 0);
    PartInStream(all, sofar, stream, delimiter, limit, at);
    if |sofar| + at <= limit { AgreesAfter(value, stream[at + |delimiter|..], status, isFinal, after); }
  }

  class Reader {
    var rest: string    // what fread has not returned yet
    var eof: bool
    var buffer: string

    constructor (file: string)
      ensures Valid() && Stream() == file && !eof
    {
      rest, eof, buffer := file, false, "";
    }

    ghost predicate Valid()
      reads this
    {
      eof ==> rest == ""
    }

    /** All bytes not consumed yet. */
    ghost function Stream(): string
      reads this
    {
      buffer + rest
    }

    /** How many more fills can change anything. */
    ghost function FillsLeft(): nat
      reads this
    {
      |rest| + if eof then 0 else 1
    }

    /** One fread: at most 8192 bytes, but possibly fewer. */
    method Fill() returns (more: bool)
      requires Valid()
      modifies this
      ensures Valid() && Stream() == old(Stream()) && old(buffer) <= buffer
      ensures !old(eof) ==> FillsLeft() < old(FillsLeft())
      ensures old(eof) ==> !more && buffer == old(buffer) && eof
      ensures !more && eof ==> rest == "" && (old(eof) || buffer == "")
      ensures !more ==> eof
      ensures eof ==> buffer == old(buffer)
    {
      if eof { return false; }
      if rest != "" {
        var n :| 1 <= n <= |rest| && n <= 8192;
        ghost var before := Stream();
        buffer := buffer + rest[..n];
        rest := rest[n..];
        assert Stream() == before;
        return true;
      }
      eof := true;
      return buffer != "";
    }

    /** The line up to the first CRLF of the stream. */
    method ReadLine() returns (ok: bool, line: string)
      requires Valid()
      modifies this
      ensures Valid()
      ensures ok <==> Find(old(Stream()), CRLF, 0) >= 0
      ensures ok ==> eof == old(eof)
      ensures ok ==> var end := Find(old(Stream()), CRLF, 0); line == old(Stream())[..end] && Stream() == old(Stream())[end + 2..]
      ensures !ok ==> Stream() == old(Stream())
    {
      line := "";
      while true
        invariant Valid() && Stream() == old(Stream())
        invariant eof == old(eof) || (eof && Find(buffer, CRLF, 0) < 0)
        decreases FillsLeft()
      {
        var pos := Find(buffer, CRLF, 0);
        if pos >= 0 {
          FindStable(buffer, rest, CRLF);
          line := buffer[..pos];
          assert Stream()[..pos] == line && Stream()[pos + 2..] == buffer[pos + 2..] + rest;
          buffer := buffer[pos + 2..];
          return true, line;
        }
        var more := Fill();
        if !more {
          assert Stream() == buffer;
          return false, "";
        }
      }
    }

    method ReadHeaderLine() returns (h: HeaderLine)
      requires Valid()
      modifies this
      ensures Valid() && h == HeaderLineOf(old(Stream()))
      ensures !h.BadLine? ==> Stream() == h.after && eof == old(eof)
    {
      var found, line := ReadLine();
      if !found { return BadLine; }
      if line == "" { return EndOfHeaders(buffer + rest); }
      var colon := Find(line, ":", 0);
      if colon < 0 { return BadLine; }
      h := Field(Lower(Trim(line[..colon])), Trim(line[colon + 1..]), buffer + rest);
    }

    /** The header fields up to the empty line. */
    method ReadHeaders() returns (ok: bool, headers: map<string, string>)
      requires Valid()
      modifies this
      ensures Valid() && (ok ==> eof == old(eof))
      ensures ok <==> HeadersOf(old(Stream()), map[]).Headers?
      ensures ok ==> HeadersOf(old(Stream()), map[]) == Headers(headers, Stream())
    {
      headers := map[];
      while true
        invariant Valid() && eof == old(eof)
        invariant HeadersOf(Stream(), headers) == HeadersOf(old(Stream()), map[])
        decreases |Stream()|
      {
        var line := ReadHeaderLine();
        match line {
          case BadLine => return false, map[];
          case EndOfHeaders(_) => return true, headers;
          case Field(name, value, _) => headers := headers[name := value];
        }
      }
    }

    /** Fills until two bytes are there, or the file has no more. */
    method NeedTwo()
      requires Valid()
      modifies this
      ensures Valid() && Stream() == old(Stream()) && (|buffer| >= 2 || rest == "") && (|buffer| >= 2 ==> eof == old(eof))
    {
      while |buffer| < 2 && !eof
        invariant Valid() && Stream() == old(Stream()) && (eof == old(eof) || |buffer| < 2)
        decreases FillsLeft()
      {
        var more := Fill();
      }
    }

    /**
     Looks for the delimiter in the buffer; -1 means it is not there.  Otherwise the bytes before it go to
     the sink, and the two bytes behind it decide.
     */
    method ConsumeDelimiter(delimiter: string, sink: Sink) returns (status: int, isFinal: bool)
      requires Valid() && delimiter != "" && |sink.value| <= sink.limit && !sink.limitExceeded
      modifies this, sink
      ensures Valid() && -1 <= status <= 1
      ensures status == -1 <==> Find(old(buffer), delimiter, 0) < 0
      ensures status == -1 ==> unchanged(this) && unchanged(sink)
      ensures status != -1 ==> Consumed(old(sink.value), old(Stream()), delimiter, sink.limit, status, isFinal,
                                        sink.value, sink.limitExceeded, Stream())
      ensures status == 1 && !isFinal ==> eof == old(eof)
    {
      isFinal := false;
      var pos := Find(buffer, delimiter, 0);
      if pos < 0 { return -1, false; }
      FindStable(buffer, rest, delimiter);
      ghost var all := Stream();
      assert all[..pos] == buffer[..pos] && all[pos + |delimiter|..] == buffer[pos + |delimiter|..] + rest;
      if pos > 0 {
        var ok := sink.Write(buffer[..pos]);
        if !ok { return 0, false; }
      }
      buffer := buffer[pos + |delimiter|..];
      status, isFinal := AfterDelimiterBytes();
    }

    /** The two bytes behind a delimiter. */
    method AfterDelimiterBytes() returns (status: int, isFinal: bool)
      requires Valid()
      modifies this
      ensures Valid() && (status == 0 || status == 1)
      ensures DecidedBy(AfterDelimiter("", old(Stream())), status, isFinal, Stream())
      ensures status == 1 && !isFinal ==> eof == old(eof)
    {
      isFinal := false;
      NeedTwo();
      if |buffer| < 2 { return 0, false; }
      assert Stream()[..2] == buffer[..2] && Stream()[2..] == buffer[2..] + rest;
      if buffer[..2] == "--" {
        buffer := buffer[2..];
        if |buffer| < 2 && !eof {
          var more := Fill();
        }
        if |buffer| >= 2 && buffer[..2] == CRLF {
          buffer := buffer[2..];
        }
        return 1, true;
      }
      if buffer[..2] == CRLF {
        buffer := buffer[2..];
        return 1, false;
      }
      return 0, false;
    }

    /** What the sink has received and what is still to come make up the part's stream; no delimiter lies behind us. */
    ghost predicate Midway(all: string, delimiter: string, sink: Sink)
      reads this, sink
    {
      && Valid() && !sink.limitExceeded && |sink.value| <= sink.limit
      && sink.value + Stream() == all
      && AbsentBetween(all, delimiter, 0, |sink.value|)
    }

    /** The outcome of a part that has been decided, in the terms of the whole part's stream. */
    ghost predicate Settled(all: string, delimiter: string, sink: Sink, ok: bool, isFinal: bool)
      reads this, sink
    {
      Agrees(PartOf(all, delimiter, sink.limit), ok, isFinal, sink.value, sink.limitExceeded, Stream())
    }

    method TryDelimiter(ghost all: string, delimiter: string, sink: Sink) returns (status: int, isFinal: bool)
      requires delimiter != "" && Midway(all, delimiter, sink)
      modifies this, sink
      ensures Valid() && -1 <= status <= 1
      ensures status == -1 <==> Find(old(buffer), delimiter, 0) < 0
      ensures status == -1 ==> unchanged(this) && unchanged(sink)
      ensures status >= 0 ==> Settled(all, delimiter, sink, status == 1, isFinal)
      ensures status == 1 && !isFinal ==> eof == old(eof)
    {
      ghost var sofar, stream := sink.value, Stream();
      status, isFinal := ConsumeDelimiter(delimiter, sink);
      if status >= 0 {
        ConsumedAgrees(all, sofar, stream, delimiter, sink.limit, status, isFinal, sink.value, sink.limitExceeded, Stream());
      }
    }

    /** Hands all but the last |delimiter| bytes of the buffer to the sink. */
    method FlushBuffer(ghost all: string, delimiter: string, sink: Sink) returns (fits: bool)
      requires delimiter != "" && Midway(all, delimiter, sink)
      requires |buffer| > |delimiter| && Find(buffer, delimiter, 0) < 0
      modifies this`buffer, sink
      ensures fits ==> Midway(all, delimiter, sink) && |buffer| == |delimiter| && Find(buffer, delimiter, 0) < 0
      ensures !fits ==> Valid() && Settled(all, delimiter, sink, false, false)
    {
      var flush := |buffer| - |delimiter|;
      ghost var sofar, before, tail := sink.value, buffer, rest;
      FlushedPrefix(sofar, before, tail, delimiter, flush);
      FlushedRegroup(sofar, before, tail, flush);
      NoneInTail(before, delimiter, flush);
      fits := sink.Write(buffer[..flush]);
      if fits {
        buffer := buffer[flush..];
      } else {
        TooLargeAlready(all, |sofar| + flush, delimiter, sink.limit);
      }
    }

    /** At the end of the file without a delimiter the part is bad, and within the limit. */
    lemma Unterminated(all: string, delimiter: string, sink: Sink)
      requires Midway(all, delimiter, sink) && eof && |buffer| <= |delimiter| && Find(buffer, delimiter, 0) < 0
      ensures PartOf(all, delimiter, sink.limit) == PartBad
    {
      assert all == sink.value + buffer;
      FindBehind(sink.value, buffer, delimiter);
    }

    /**
     Streams one part into the sink.  The sink gets exactly the bytes before the first delimiter of the
     stream, whatever the sizes of the fills, and its limit trips exactly when there are more than that.
     */
    method ReadPartBody(delimiter: string, sink: Sink) returns (ok: bool, isFinal: bool)
      requires Valid() && !eof && delimiter != "" && sink.value == "" && !sink.limitExceeded
      modifies this, sink
      ensures Valid()
      ensures Settled(old(Stream()), delimiter, sink, ok, isFinal)
      ensures ok && !isFinal ==> !eof
    {
      ghost var all := Stream();
      assert sink.value + Stream() == all;
      while true
        invariant Midway(all, delimiter, sink)
        invariant eof ==> |buffer| <= |delimiter| && Find(buffer, delimiter, 0) < 0
        decreases FillsLeft()
      {
        var status;
        status, isFinal := TryDelimiter(all, delimiter, sink);
        if status >= 0 { return status == 1, isFinal; }
        if eof {
          Unterminated(all, delimiter, sink);
          return false, false;
        }
        var more := Fill();
        if !more && eof {
          Unterminated(all, delimiter, sink);
          return false, false;
        }
        status, isFinal := TryDelimiter(all, delimiter, sink);
        if status >= 0 { return status == 1, isFinal; }
        if |buffer| > |delimiter| {
          var fits := FlushBuffer(all, delimiter, sink);
          if !fits { return false, false; }
        }
      }
    }

    /** A form field: its value is kept in memory. */
    method ReadField(boundary: string, name: string, form: Form) returns (turn: Turn)
      requires Valid() && !eof
      modifies this
      ensures Valid() && turn == Advance(PartOf(old(Stream()), "\r\n--" + boundary, TEXT_FIELD_LIMIT), form, name)
      ensures turn.Next? ==> Stream() == turn.rest && !eof
    {
      var sink := new Sink(TEXT_FIELD_LIMIT);
      var ok, isFinal := ReadPartBody("\r\n--" + boundary, sink);
      if !ok { return Stop(if sink.limitExceeded then 413 else 400); }
      var longer := if name == "" then form else form.(fields := form.fields[name := sink.value]);
      return if isFinal then Last(longer) else Next(buffer + rest, longer);
    }

    /** The file: its bytes go to a temporary file, which an error removes again. */
    method ReadFile(boundary: string, name: string, filename: string, contentType: string, uploadMax: nat, form: Form)
      returns (turn: Turn, temp: Option<string>)
      requires Valid() && !eof
      modifies this
      ensures Valid() && turn == AdvanceFile(PartOf(old(Stream()), "\r\n--" + boundary, uploadMax), form, name, filename, contentType)
      ensures turn.Next? ==> Stream() == turn.rest && !eof
      ensures temp == TempFile(turn)
    {
      var safe := SanitizeFilename(filename);
      var sink := new Sink(uploadMax);
      var ok, isFinal := ReadPartBody("\r\n--" + boundary, sink);
      if !ok { return Stop(if sink.limitExceeded then 413 else 400), None; }
      if sink.value == "" { return Stop(400), None; }
      var file := FilePart(safe, if contentType == "" then "application/octet-stream" else contentType, sink.value);
      var longer := form.(file := Some(file));
      if name != "" { longer := longer.(fields := longer.fields[name := safe]); }
      return if isFinal then Last(longer) else Next(buffer + rest, longer), Some(sink.value);
    }

    /** One part: its header decides where the bytes go. */
    method ReadPart(boundary: string, uploadMax: nat, form: Form, held: Option<string>)
      returns (turn: Turn, temp: Option<string>)
      requires Valid() && !eof && held == HeldBy(form)
      modifies this
      ensures Valid() && turn == PartTurn(old(Stream()), boundary, uploadMax, form)
      ensures turn.Next? ==> Stream() == turn.rest && !eof
      ensures temp == TempFile(turn)
    {
      var ok, headers := ReadHeaders();
      if !ok || "content-disposition" !in headers { return Stop(400), None; }
      var name := HeaderParam(headers["content-disposition"], "name");
      var filename := HeaderParam(headers["content-disposition"], "filename");
      var contentType := if "content-type" in headers then headers["content-type"] else "";
      if filename == "" {
        turn := ReadField(boundary, name, form);
        return turn, if turn.Stop? then None else held;
      }
      if form.file.Some? { return Stop(400), None; }
      turn, temp := ReadFile(boundary, name, filename, contentType, uploadMax, form);
    }
  }

  /** The temporary file a form refers to, by its contents. */
  function HeldBy(form: Form): Option<string> {
    match form.file
    case None => None
    case Some(file) => Some(file.content)
  }

  /** The temporary file that exists after a turn. */
  function TempFile(turn: Turn): Option<string> {
    match turn
    case Stop(_) => None
    case Next(_, form) => HeldBy(form)
    case Last(form) => HeldBy(form)
  }

  /**
   Parses a spool file through the streaming reader.  The result is that of the whole file's bytes, for
   every way the reads may be cut; a failed parse leaves no temporary file behind, a successful one exactly
   the file part's bytes.
   */
  method ParseSpooled(file: string, contentType: string, uploadMax: nat) returns (outcome: Outcome, temp: Option<string>)
    ensures outcome == ParseForm(file, contentType, uploadMax)
    ensures temp == match outcome { case Parsed(form) => HeldBy(form) case Failed(_) => None }
  {
    var found := BoundaryOf(contentType);
    if found.None? { return Failed(400), None; }
    var boundary := found.value;
    var reader := new Reader(file);
    var ok, line := reader.ReadLine();
    if !ok || line != "--" + boundary { return Failed(400), None; }
    var turn := Next(reader.buffer + reader.rest, Form(map[], Option.None));
    temp := None;
    while turn.Next?
      invariant reader.Valid() && (turn.Next? ==> reader.Stream() == turn.rest && !reader.eof)
      invariant temp == TempFile(turn)
      invariant ParseForm(file, contentType, uploadMax) == AfterTurn(turn, boundary, uploadMax)
      decreases if turn.Next? then |turn.rest| + 1 else 0
    {
      turn, temp := reader.ReadPart(boundary, uploadMax, turn.form, temp);
    }
    match turn {
      case Stop(status) => return Failed(status), None;
      case Last(form) =>
        if form.file.None? { return Failed(400), None; }
        return Parsed(form), temp;
    }
  }
}
