/**
 Encoding a form as multipart data and parsing it: the parser gives back what was encoded, or refuses
 it for the reason the part list shows.
 */
module MultipartRoundTrip {
  import opened Text
  import opened FileNames
  import opened Multipart

  /** A part as a client means it. */
  datatype FormPart =
    | TextField(name: string, value: string)
    | Upload(name: string, filename: string, contentType: string, content: string)

  // ---------- What a client sends ----------

  const DISPOSITION := "Content-Disposition"
  const TYPE := "Content-Type"
  const LEAD := "form-data; name=\""
  const FILENAME := "filename="

  function Content(part: FormPart): string {
    match part
    case TextField(_, value) => value
    case Upload(_, _, _, content) => content
  }

  function Tail(part: FormPart): string {
    if part.TextField? then "" else "; " + FILENAME + "\"" + part.filename + "\""
  }

  function Disposition(part: FormPart): string { LEAD + part.name + "\"" + Tail(part) }

  function EncodeHeaders(part: FormPart): string {
    (DISPOSITION + ": " + Disposition(part)) + CRLF
    + (if part.Upload? && part.contentType != "" then (TYPE + ": " + part.contentType) + CRLF else "") + CRLF
  }

  function Delimiter(boundary: string): string { "\r\n--" + boundary }

  function EncodeParts(parts: seq<FormPart>, boundary: string): string
    requires parts != []
  {
    EncodeHeaders(parts[0])
    + (Content(parts[0]) + (Delimiter(boundary)
                            + if |parts| == 1 then "--" + CRLF else CRLF + EncodeParts(parts[1..], boundary)))
  }

  function Encode(parts: seq<FormPart>, boundary: string): string
    requires parts != []
  {
    ("--" + boundary) + CRLF + EncodeParts(parts, boundary)
  }

  /** Names fit between quotes on one line, and the boundary does not occur in the contents. */
  ghost predicate Sendable(part: FormPart, boundary: string) {
    && '\r' !in part.name && '"' !in part.name && AbsentBetween(part.name, FILENAME, 0, |part.name| + 1)
    && AbsentBetween(Content(part), Delimiter(boundary), 0, |Content(part)| + 1)
    && (part.Upload? ==>
          && part.filename != "" && '\r' !in part.filename && '"' !in part.filename
          && '\r' !in part.contentType && Trim(part.contentType) == part.contentType)
  }

  // ---------- What the form should be ----------

  function Add(form: Form, part: FormPart, uploadMax: nat): Outcome {
    match part
    case TextField(name, value) =>
      if |value| > TEXT_FIELD_LIMIT then Failed(413) else Parsed(WithField(form, name, value))
    case Upload(name, filename, contentType, content) =>
      if form.file.Some? then Failed(400)
      else if |content| > uploadMax then Failed(413)
      else if content == "" then Failed(400)
      else
        var safe := SanitizeFilename(filename);
        var file := FilePart(safe, if contentType == "" then "application/octet-stream" else contentType, content);
        Parsed(WithField(form.(file := Some(file)), name, safe))
  }

  function Collect(parts: seq<FormPart>, uploadMax: nat, form: Form): Outcome {
    if parts == [] then (if form.file.None? then Failed(400) else Parsed(form))
    else
      match Add(form, parts[0], uploadMax)
      case Failed(status) => Failed(status)
      case Parsed(longer) => Collect(parts[1..], uploadMax, longer)
  }

  // ---------- Finding marks ----------

  lemma CharAt(s: string, c: char, i: nat)
    ensures OccursAt(s, [c], i) <==> i < |s| && s[i] == c
  {
    if i + 1 <= |s| { assert s[i..i + 1] == [s[i]]; }
  }

  lemma FindChar(s: string, c: char, from: nat, at: nat)
    requires from <= at < |s| && s[at] == c && c !in s[from..at]
    ensures Find(s, [c], from) == at
  {
    forall j: nat | from <= j < at ensures !OccursAt(s, [c], j) {
      CharAt(s, c, j);
      assert s[j] == s[from..at][j - from];
    }
    CharAt(s, c, at);
    FindIs(s, [c], from, at);
  }

  lemma CharsAgree(s: string, pattern: string, j: nat, k: nat)
    requires k < |pattern| && j + k < |s|
    ensures OccursAt(s, pattern, j) ==> s[j + k] == pattern[k]
  {
    if j + |pattern| <= |s| { assert s[j..j + |pattern|][k] == s[j + k]; }
  }

  /** A mark whose first character is not repeated does not start inside the text and end behind it. */
  lemma NoOverlap(text: string, mark: string, tail: string, j: nat)
    requires mark != "" && mark[0] !in mark[1..] && j < |text| < j + |mark|
    ensures !OccursAt(text + (mark + tail), mark, j)
  {
    var k := |text| - j;
    CharsAgree(text + (mark + tail), mark, j, k);
    assert mark[1..][k - 1] == mark[k];
  }

  lemma FindMark(text: string, mark: string, tail: string)
    requires mark != "" && mark[0] !in mark[1..] && AbsentBetween(text, mark, 0, |text| + 1)
    ensures Find(text + (mark + tail), mark, 0) == |text|
  {
    var s := text + (mark + tail);
    forall j: nat | j < |text| ensures !OccursAt(s, mark, j) {
      if j + |mark| <= |text| {
        OccursInPrefix(text, mark + tail, mark, j);
      } else {
        NoOverlap(text, mark, tail, j);
      }
    }
    assert s[|text|..|text| + |mark|] == mark;
    FindIs(s, mark, 0, |text|);
  }

  lemma FindDelimiter(content: string, boundary: string, tail: string)
    requires '\r' !in boundary && AbsentBetween(content, Delimiter(boundary), 0, |content| + 1)
    ensures Find(content + (Delimiter(boundary) + tail), Delimiter(boundary), 0) == |content|
  {
    assert Delimiter(boundary)[1..] == "\n--" + boundary;
    FindMark(content, Delimiter(boundary), tail);
  }

  // ---------- Header lines ----------

  lemma TrimNone(s: string)
    requires s != "" && !IsSpace(s[0]) && !IsSpace(s[|s| - 1])
    ensures Trim(s) == s && Trim(" " + s) == s
  {
    assert (" " + s)[1..] == s;
  }

  lemma HeaderLineIs(name: string, value: string, rest: string)
    requires name != "" && '\r' !in name && ':' !in name && !IsSpace(name[0]) && !IsSpace(name[|name| - 1])
    requires '\r' !in value && value != "" && !IsSpace(value[0]) && !IsSpace(value[|value| - 1])
    ensures HeaderLineOf((name + ": " + value) + CRLF + rest) == Field(Lower(name), value, rest)
  {
    var line := name + ": " + value;
    LineEnds(line, rest);
    assert line[..|name|] == line[0..|name|] == name && line[|name| + 1..] == " " + value;
    FindChar(line, ':', 0, |name|);
    TrimNone(name);
    TrimNone(value);
  }

  lemma LowerNames()
    ensures Lower(DISPOSITION) == "content-disposition" && Lower(TYPE) == "content-type"
  {
  }

  // ---------- The parameters of a disposition ----------

  /** A pattern without a quote that occurs in a quoted text ends left of a quote or starts right of it. */
  lemma QuoteSplits(a: string, b: string, pattern: string, j: nat)
    requires '"' !in pattern && j <= |a| < j + |pattern|
    ensures !OccursAt(a + "\"" + b, pattern, j)
  {
    CharsAgree(a + "\"" + b, pattern, j, |a| - j);
    assert pattern[|a| - j] in pattern;
  }

  function Quoted(before: string, mark: string, value: string, after: string): string {
    (before + mark + "\"" + value) + "\"" + after
  }

  lemma QuotedParts(before: string, mark: string, value: string, after: string)
    ensures var line := Quoted(before, mark, value, after);
            var at := |before| + |mark|;
            && OccursAt(line, mark, |before|)
            && |line| > at + 1 + |value| && line[at] == '"' && line[at + 1..at + 1 + |value|] == value && line[at + 1 + |value|] == '"'
  {
  }

  lemma QuotedBranch(line: string, pos: nat)
    requires pos < |line| && line[pos] == '"'
    ensures SkipSpaces(line, pos) == pos && ParamValue(line, pos) == QuotedValue(line, pos + 1)
  {
  }

  lemma ParamAt(line: string, mark: string, at: int)
    requires at == Find(line, mark, 0) >= 0 && at + |mark| <= |line| && SkipSpaces(line, at + |mark|) == at + |mark|
    ensures ParamBehind(line, mark) == ParamValue(line, at + |mark|)
  {
  }

  lemma ValueBetween(line: string, pos: nat, end: nat)
    requires pos <= end < |line| && line[end] == '"' && '"' !in line[pos..end]
    ensures QuotedValue(line, pos) == line[pos..end]
  {
    FindChar(line, '"', pos, end);
  }

  lemma QuotedParam(before: string, mark: string, value: string, after: string)
    requires '"' !in value && AbsentBetween(Quoted(before, mark, value, after), mark, 0, |before|)
    ensures ParamBehind(Quoted(before, mark, value, after), mark) == value
  {
    var line := Quoted(before, mark, value, after);
    var pos := |before| + |mark|;
    QuotedParts(before, mark, value, after);
    calc {
      ParamBehind(line, mark);
      { FindIs(line, mark, 0, |before|); QuotedBranch(line, pos); ParamAt(line, mark, |before|); }
      ParamValue(line, pos);
      { QuotedBranch(line, pos); }
      QuotedValue(line, pos + 1);
      { ValueBetween(line, pos + 1, pos + 1 + |value|); }
      value;
    }
  }

  lemma NameParam(part: FormPart)
    requires '"' !in part.name
    ensures HeaderParam(Disposition(part), "name") == part.name
  {
    var v := Quoted("form-data; ", "name=", part.name, Tail(part));
    assert v == Disposition(part);
    forall j: nat | j < 11 ensures !OccursAt(v, "name=", j) {
      assert v[j + 4] == LEAD[j + 4];
      CharsAgree(v, "name=", j, 4);
    }
    assert "name" + "=" == "name=";
    QuotedParam("form-data; ", "name=", part.name, Tail(part));
  }

  lemma NoFilenameInLead(rest: string, j: nat)
    requires j <= 16
    ensures !OccursAt(LEAD + rest, FILENAME, j)
  {
    var s := LEAD + rest;
    if j <= 7 {
      assert s[j] == LEAD[j] && s[j + 8] == LEAD[j + 8];
      CharsAgree(s, FILENAME, j, 0);
      CharsAgree(s, FILENAME, j, 8);
    } else {
      assert s == LEAD[..16] + "\"" + rest;
      QuoteSplits(LEAD[..16], rest, FILENAME, j);
    }
  }

  lemma NoFilenameInName(name: string, tail: string, j: nat)
    requires AbsentBetween(name, FILENAME, 0, |name| + 1) && j <= |name|
    ensures !OccursAt(name + "\"" + tail, FILENAME, j)
  {
    if j + 9 <= |name| {
      assert name + "\"" + tail == name + ("\"" + tail);
      OccursInPrefix(name, "\"" + tail, FILENAME, j);
    } else {
      QuoteSplits(name, tail, FILENAME, j);
    }
  }

  /** The name holds no filename parameter, so nothing left of the tail does. */
  lemma NoFilename(part: FormPart)
    requires AbsentBetween(part.name, FILENAME, 0, |part.name| + 1)
    ensures AbsentBetween(Disposition(part), FILENAME, 0, 18 + |part.name|)
  {
    var rest := part.name + "\"" + Tail(part);
    assert Disposition(part) == LEAD + rest;
    forall j: nat | j < 18 + |part.name| ensures !OccursAt(LEAD + rest, FILENAME, j) {
      if j <= 16 {
        NoFilenameInLead(rest, j);
      } else {
        NoFilenameInName(part.name, Tail(part), j - 17);
        OccursInSuffix(LEAD, rest, FILENAME, j);
      }
    }
  }

  lemma FilenameParam(part: FormPart)
    requires AbsentBetween(part.name, FILENAME, 0, |part.name| + 1)
    requires part.Upload? ==> '"' !in part.filename
    ensures HeaderParam(Disposition(part), "filename") == if part.Upload? then part.filename else ""
  {
    NoFilename(part);
    if part.TextField? {
      FindIs(Disposition(part), FILENAME, 0, -1);
      assert "filename" + "=" == FILENAME;
    } else {
      UploadParam(part);
    }
  }

  lemma UploadParam(part: FormPart)
    requires part.Upload? && '"' !in part.filename
    requires AbsentBetween(Disposition(part), FILENAME, 0, 18 + |part.name|)
    ensures HeaderParam(Disposition(part), "filename") == part.filename
  {
    var before := LEAD + part.name + "\"" + "; ";
    var v := Quoted(before, FILENAME, part.filename, "");
    assert "filename" + "=" == FILENAME;
    assert v == Disposition(part);
    forall j: nat | |before| - 2 <= j < |before| ensures !OccursAt(v, FILENAME, j) {
      assert v[j] == "; "[j - |before| + 2];
      CharsAgree(v, FILENAME, j, 0);
    }
    AbsentJoin(v, FILENAME, 0, |before| - 2, |before|);
    QuotedParam(before, FILENAME, part.filename, "");
  }

  // ---------- One part ----------

  lemma TrimmedEnds(s: string)
    requires s != "" && Trim(s) == s
    ensures !IsSpace(s[0]) && !IsSpace(s[|s| - 1])
  {
    TrimShortens(s);
    TrimShortens(TrimLeft(s));
    TrimShortens(s[1..]);
    TrimShortens(s[..|s| - 1]);
  }

  function FieldsOf(part: FormPart): map<string, string> {
    var disposition := map["content-disposition" := Disposition(part)];
    if part.Upload? && part.contentType != "" then disposition["content-type" := part.contentType] else disposition
  }

  lemma TypeLine(contentType: string, rest: string)
    requires contentType != "" && '\r' !in contentType && Trim(contentType) == contentType
    ensures HeaderLineOf((TYPE + ": " + contentType) + CRLF + rest) == Field("content-type", contentType, rest)
  {
    LowerNames();
    TrimmedEnds(contentType);
    HeaderLineIs(TYPE, contentType, rest);
  }

  lemma DispositionLine(part: FormPart, rest: string)
    requires '\r' !in part.name && (part.Upload? ==> '\r' !in part.filename)
    ensures HeaderLineOf((DISPOSITION + ": " + Disposition(part)) + CRLF + rest)
            == Field("content-disposition", Disposition(part), rest)
  {
    LowerNames();
    var value := Disposition(part);
    assert value[0] == LEAD[0] && value[|value| - 1] == '"';
    HeaderLineIs(DISPOSITION, value, rest);
  }

  lemma LastLine(rest: string)
    ensures HeaderLineOf(CRLF + rest) == EndOfHeaders(rest)
  {
    assert "" + CRLF + rest == CRLF + rest;
    LineEnds("", rest);
  }

  lemma HeadersBack(part: FormPart, boundary: string, rest: string)
    requires Sendable(part, boundary)
    ensures HeadersOf(EncodeHeaders(part) + rest, map[]) == Headers(FieldsOf(part), rest)
  {
    var typed := part.Upload? && part.contentType != "";
    var after := if typed then (TYPE + ": " + part.contentType) + CRLF + (CRLF + rest) else CRLF + rest;
    assert EncodeHeaders(part) + rest == (DISPOSITION + ": " + Disposition(part)) + CRLF + after;
    DispositionLine(part, after);
    var first := map["content-disposition" := Disposition(part)];
    assert HeadersOf(EncodeHeaders(part) + rest, map[]) == HeadersOf(after, first);
    LastLine(rest);
    if typed {
      TypeLine(part.contentType, CRLF + rest);
      assert HeadersOf(after, first) == HeadersOf(CRLF + rest, FieldsOf(part));
    }
  }

  function Ending(isLast: bool, more: string): string { if isLast then "--" + CRLF else CRLF + more }

  lemma ContentBack(content: string, boundary: string, isLast: bool, more: string, limit: nat)
    requires '\r' !in boundary && AbsentBetween(content, Delimiter(boundary), 0, |content| + 1)
    ensures PartOf(content + (Delimiter(boundary) + Ending(isLast, more)), Delimiter(boundary), limit)
            == if |content| > limit then PartTooLarge else PartOk(content, isLast, if isLast then "" else more)
  {
    var tail := Ending(isLast, more);
    var s := content + (Delimiter(boundary) + tail);
    FindDelimiter(content, boundary, tail);
    assert s[..|content|] == content && s[|content| + |Delimiter(boundary)|..] == tail;
    assert tail[..2] == if isLast then "--" else CRLF;
    assert !isLast ==> tail[2..] == more;
  }

  /** Where the parser sends a part, once its header is read. */
  lemma Dispatch(part: FormPart, boundary: string, stream: string, rest: string, uploadMax: nat, form: Form)
    requires HeadersOf(stream, map[]) == Headers(FieldsOf(part), rest) && Sendable(part, boundary)
    ensures PartTurn(stream, boundary, uploadMax, form)
            == match part {
                 case TextField(name, _) => Advance(PartOf(rest, Delimiter(boundary), TEXT_FIELD_LIMIT), form, name)
                 case Upload(name, filename, contentType, _) =>
                   if form.file.Some? then Stop(400)
                   else AdvanceFile(PartOf(rest, Delimiter(boundary), uploadMax), form, name, filename, contentType)
               }
  {
    NameParam(part);
    FilenameParam(part);
    var fields := FieldsOf(part);
    assert fields["content-disposition"] == Disposition(part);
    assert part.Upload? ==> part.contentType == if "content-type" in fields then fields["content-type"] else "";
  }

  /** What the parser does with one encoded part is what the part asks for. */
  lemma PartBack(part: FormPart, boundary: string, isLast: bool, more: string, uploadMax: nat, form: Form)
    requires Sendable(part, boundary) && '\r' !in boundary
    ensures PartTurn(EncodeHeaders(part) + (Content(part) + (Delimiter(boundary) + Ending(isLast, more))), boundary, uploadMax, form)
            == match Add(form, part, uploadMax) {
                 case Failed(status) => Stop(status)
                 case Parsed(longer) => if isLast then Last(longer) else Next(more, longer)
               }
  {
    var rest := Content(part) + (Delimiter(boundary) + Ending(isLast, more));
    HeadersBack(part, boundary, rest);
    Dispatch(part, boundary, EncodeHeaders(part) + rest, rest, uploadMax, form);
    ContentBack(Content(part), boundary, isLast, more, if part.Upload? then uploadMax else TEXT_FIELD_LIMIT);
  }

  // ---------- The form ----------

  lemma {:induction false} PartsBack(parts: seq<FormPart>, boundary: string, uploadMax: nat, form: Form)
    requires parts != [] && '\r' !in boundary && forall part <- parts :: Sendable(part, boundary)
    ensures ParseParts(EncodeParts(parts, boundary), boundary, uploadMax, form) == Collect(parts, uploadMax, form)
    decreases |parts|
  {
    var isLast := |parts| == 1;
    var more := if isLast then "" else EncodeParts(parts[1..], boundary);
    PartBack(parts[0], boundary, isLast, more, uploadMax, form);
    var turn := PartTurn(EncodeParts(parts, boundary), boundary, uploadMax, form);
    assert ParseParts(EncodeParts(parts, boundary), boundary, uploadMax, form) == AfterTurn(turn, boundary, uploadMax);
    if turn.Next? { PartsBack(parts[1..], boundary, uploadMax, turn.form); }
  }

  /** Parsing an encoded form gives the form of its part list, for every list of parts that can be sent. */
  lemma RoundTrip(parts: seq<FormPart>, boundary: string, contentType: string, uploadMax: nat)
    requires parts != [] && '\r' !in boundary && forall part <- parts :: Sendable(part, boundary)
    requires BoundaryOf(contentType) == Some(boundary)
    ensures ParseForm(Encode(parts, boundary), contentType, uploadMax) == Collect(parts, uploadMax, Form(map[], None))
  {
    LineEnds("--" + boundary, EncodeParts(parts, boundary));
    PartsBack(parts, boundary, uploadMax, Form(map[], None));
  }

  // ---------- What an accepted form holds ----------

  function FieldValue(part: FormPart): string {
    match part
    case TextField(_, value) => value
    case Upload(_, filename, _, _) => SanitizeFilename(filename)
  }

  function Lookup(fields: map<string, string>, name: string): Option<string> {
    if name in fields then Some(fields[name]) else None
  }

  /** The value of a field: that of the last part with its name. */
  function LastValue(parts: seq<FormPart>, name: string, otherwise: Option<string>): Option<string>
    requires name != ""
  {
    if parts == [] then otherwise
    else LastValue(parts[1..], name, if parts[0].name == name then Some(FieldValue(parts[0])) else otherwise)
  }

  lemma {:induction false} CollectField(parts: seq<FormPart>, uploadMax: nat, form: Form, name: string)
    requires Collect(parts, uploadMax, form).Parsed?
    ensures var fields := Collect(parts, uploadMax, form).form.fields;
            Lookup(fields, name)
            == if name == "" then Lookup(form.fields, "") else LastValue(parts, name, Lookup(form.fields, name))
    decreases |parts|
  {
    if parts != [] {
      var longer := Add(form, parts[0], uploadMax).form;
      CollectField(parts[1..], uploadMax, longer, name);
    }
  }

  /** The limits on one part. */
  predicate Fits(part: FormPart, uploadMax: nat) {
    match part
    case TextField(_, value) => |value| <= TEXT_FIELD_LIMIT
    case Upload(_, _, _, content) => 0 < |content| <= uploadMax
  }

  function Uploads(parts: seq<FormPart>): nat {
    if parts == [] then 0 else (if parts[0].Upload? then 1 else 0) + Uploads(parts[1..])
  }

  function FileOf(part: FormPart): FilePart
    requires part.Upload?
  {
    FilePart(SanitizeFilename(part.filename),
             if part.contentType == "" then "application/octet-stream" else part.contentType, part.content)
  }

  lemma {:induction false} CollectAccepts(parts: seq<FormPart>, uploadMax: nat, form: Form)
    ensures Collect(parts, uploadMax, form).Parsed?
            <==> (forall part <- parts :: Fits(part, uploadMax)) && Uploads(parts) + (if form.file.Some? then 1 else 0) == 1
    decreases |parts|
  {
    if parts != [] {
      assert forall part <- parts :: part == parts[0] || part in parts[1..];
      match Add(form, parts[0], uploadMax)
      case Failed(_) => assert !Fits(parts[0], uploadMax) || (form.file.Some? && parts[0].Upload?);
      case Parsed(longer) => CollectAccepts(parts[1..], uploadMax, longer);
    }
  }

  lemma {:induction false} CollectFile(parts: seq<FormPart>, uploadMax: nat, form: Form)
    requires Collect(parts, uploadMax, form).Parsed?
    ensures var file := Collect(parts, uploadMax, form).form.file;
            && file.Some? && (form.file.Some? ==> file == form.file)
            && forall part <- parts :: part.Upload? ==> form.file.None? && file == Some(FileOf(part))
    decreases |parts|
  {
    if parts != [] {
      assert forall part <- parts :: part == parts[0] || part in parts[1..];
      CollectFile(parts[1..], uploadMax, Add(form, parts[0], uploadMax).form);
    }
  }

  /**
   An encoded form is accepted exactly when it has one file and every part is within its limits.  Then the
   file comes back with its sanitized name, and every field with the value of the last part of its name.
   */
  lemma AcceptedFormComesBack(parts: seq<FormPart>, boundary: string, contentType: string, uploadMax: nat)
    requires parts != [] && '\r' !in boundary && forall part <- parts :: Sendable(part, boundary)
    requires BoundaryOf(contentType) == Some(boundary)
    ensures var outcome := ParseForm(Encode(parts, boundary), contentType, uploadMax);
            && (outcome.Parsed? <==> (forall part <- parts :: Fits(part, uploadMax)) && Uploads(parts) == 1)
            && (outcome.Parsed? ==>
                  && (forall part <- parts :: part.Upload? ==> outcome.form.file == Some(FileOf(part)))
                  && "" !in outcome.form.fields
                  && (forall name :: name != "" ==> Lookup(outcome.form.fields, name) == LastValue(parts, name, None)))
  {
    RoundTrip(parts, boundary, contentType, uploadMax);
    var empty := Form(map[], None);
    CollectAccepts(parts, uploadMax, empty);
    if Collect(parts, uploadMax, empty).Parsed? {
      CollectFile(parts, uploadMax, empty);
      forall name ensures Lookup(Collect(parts, uploadMax, empty).form.fields, name)
                          == if name == "" then None else LastValue(parts, name, None)
      {
        CollectField(parts, uploadMax, empty, name);
      }
      assert Lookup(Collect(parts, uploadMax, empty).form.fields, "") == None;
    }
  }
}
