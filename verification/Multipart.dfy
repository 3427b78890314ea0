/**
 Multipart form data (RFC 7578, section 5.1.1 of RFC 2046) as the server reads it, as a function of the
 bytes of the spool file: what the streaming reader must compute however its reads are cut.
 */
module Multipart {
  import opened Text
  import opened FileNames

  const TEXT_FIELD_LIMIT := 64 * 1024

  // ---------- Small helpers ----------

  function LowerChar(c: char): char {
    if 'A' <= c <= 'Z' then (c as int + 32) as char else c
  }

  function Lower(s: string): (r: string)
    ensures |r| == |s|
  {
    seq(|s|, i requires 0 <= i < |s| => LowerChar(s[i]))
  }

  function SkipSpaces(s: string, i: nat): (r: nat)
    requires i <= |s|
    ensures i <= r <= |s|
    decreases |s| - i
  {
    if i < |s| && IsSpace(s[i]) then SkipSpaces(s, i + 1) else i
  }

  /** The value of `key=` in a header line: quoted, or up to the next semicolon. */
  function HeaderParam(line: string, key: string): string { ParamBehind(line, key + "=") }

  function ParamBehind(line: string, mark: string): string {
    var at := Find(line, mark, 0);
    if at < 0 then "" else ParamValue(line, SkipSpaces(line, at + |mark|))
  }

  function ParamValue(line: string, pos: nat): string
    requires pos <= |line|
  {
    if pos == |line| then "" else if line[pos] == '"' then QuotedValue(line, pos + 1) else BareValue(line, pos)
  }

  function QuotedValue(line: string, pos: nat): string
    requires pos <= |line|
  {
    var end := Find(line, "\"", pos);
    if end < 0 then "" else line[pos..end]
  }

  function BareValue(line: string, pos: nat): string
    requires pos <= |line|
  {
    var end := Find(line, ";", pos);
    Trim(line[pos..if end < 0 then |line| else end])
  }

  // ---------- Parts ----------

  /** What the stream holds up to the next delimiter, and what follows it. */
  datatype Part =
    | PartOk(content: string, isFinal: bool, rest: string)
    | PartTooLarge
    | PartBad

  /** The bytes before the first delimiter are the part; the two bytes behind it say whether it is the last. */
  function PartOf(stream: string, delimiter: string, limit: nat): Part {
    var at := Find(stream, delimiter, 0);
    if at < 0 then (if |stream| > |delimiter| + limit then PartTooLarge else PartBad)
    else if at > limit then PartTooLarge
    else AfterDelimiter(stream[..at], stream[at + |delimiter|..])
  }

  function AfterDelimiter(content: string, tail: string): Part {
    if |tail| < 2 then PartBad
    else if tail[..2] == "--" then PartOk(content, true, "")
    else if tail[..2] == CRLF then PartOk(content, false, tail[2..])
    else PartBad
  }

  /** One line of a part's header. */
  datatype HeaderLine = Field(name: string, value: string, after: string) | EndOfHeaders(after: string) | BadLine

  function HeaderLineOf(stream: string): (h: HeaderLine)
    ensures !h.BadLine? ==> |h.after| < |stream|
  {
    var end := Find(stream, CRLF, 0);
    if end < 0 then BadLine
    else if end == 0 then EndOfHeaders(stream[2..])
    else
      var line := stream[..end];
      var colon := Find(line, ":", 0);
      if colon < 0 then BadLine
      else Field(Lower(Trim(line[..colon])), Trim(line[colon + 1..]), stream[end + 2..])
  }

  datatype Headers = Headers(fields: map<string, string>, rest: string) | NoHeaders

  function HeadersOf(stream: string, fields: map<string, string>): (h: Headers)
    ensures h.Headers? ==> |h.rest| < |stream|
    decreases |stream|
  {
    var line := HeaderLineOf(stream);
    match line
    case BadLine => NoHeaders
    case EndOfHeaders(after) => Headers(fields, after)
    case Field(name, value, after) => HeadersOf(after, fields[name := value])
  }

  datatype FilePart = FilePart(filename: string, contentType: string, content: string)
  datatype Form = Form(fields: map<string, string>, file: Option<FilePart>)
  datatype Outcome = Parsed(form: Form) | Failed(status: int)

  /** What one part does to the form. */
  datatype Turn = Next(rest: string, form: Form) | Last(form: Form) | Stop(status: int)

  function WithField(form: Form, name: string, value: string): Form {
    if name == "" then form else form.(fields := form.fields[name := value])
  }

  function PartTurn(stream: string, boundary: string, uploadMax: nat, form: Form): (turn: Turn)
    ensures turn.Next? ==> |turn.rest| < |stream|
  {
    var h := HeadersOf(stream, map[]);
    if h.NoHeaders? || "content-disposition" !in h.fields then Stop(400)
    else
      var name := HeaderParam(h.fields["content-disposition"], "name");
      var filename := HeaderParam(h.fields["content-disposition"], "filename");
      var contentType := if "content-type" in h.fields then h.fields["content-type"] else "";
      if filename == "" then Advance(PartOf(h.rest, "\r\n--" + boundary, TEXT_FIELD_LIMIT), form, name)
      else if form.file.Some? then Stop(400)
      else AdvanceFile(PartOf(h.rest, "\r\n--" + boundary, uploadMax), form, name, filename, contentType)
  }

  function Advance(part: Part, form: Form, name: string): Turn {
    match part
    case PartTooLarge => Stop(413)
    case PartBad => Stop(400)
    case PartOk(content, isFinal, rest) =>
      var longer := WithField(form, name, content);
      if isFinal then Last(longer) else Next(rest, longer)
  }

  function AdvanceFile(part: Part, form: Form, name: string, filename: string, contentType: string): Turn {
    match part
    case PartTooLarge => Stop(413)
    case PartBad => Stop(400)
    case PartOk(content, isFinal, rest) =>
      if content == "" then Stop(400)
      else
        var safe := SanitizeFilename(filename);
        var file := FilePart(safe, if contentType == "" then "application/octet-stream" else contentType, content);
        var longer := WithField(form.(file := Some(file)), name, safe);
        if isFinal then Last(longer) else Next(rest, longer)
  }

  function ParseParts(stream: string, boundary: string, uploadMax: nat, form: Form): Outcome
    decreases |stream| + 1, 0
  {
    AfterTurn(PartTurn(stream, boundary, uploadMax, form), boundary, uploadMax)
  }

  function AfterTurn(turn: Turn, boundary: string, uploadMax: nat): Outcome
    decreases if turn.Next? then |turn.rest| + 1 else 0, 1
  {
    match turn
    case Next(rest, form) => ParseParts(rest, boundary, uploadMax, form)
    case Last(form) => if form.file.None? then Failed(400) else Parsed(form)
    case Stop(status) => Failed(status)
  }

  /** The boundary parameter of the Content-Type header, without surrounding quotes. */
  function BoundaryOf(contentType: string): Option<string> {
    var at := Find(contentType, "boundary=", 0);
    if at < 0 then None
    else
      var b := Trim(contentType[at + 9..]);
      var bare := if b != "" && b[0] == '"' && b[|b| - 1] == '"' then (if |b| == 1 then "" else b[1..|b| - 1]) else b;
      if bare == "" then None else Some(bare)
  }

  /** The result of parsing a spool file with these bytes. */
  function ParseForm(file: string, contentType: string, uploadMax: nat): Outcome {
    match BoundaryOf(contentType)
    case None => Failed(400)
    case Some(boundary) =>
      var end := Find(file, CRLF, 0);
      if end < 0 || file[..end] != "--" + boundary then Failed(400)
      else ParseParts(file[end + 2..], boundary, uploadMax, Form(map[], None))
  }
}
