/** JSON request bodies: the escaping the server writes and the flat objects it reads. */
module JsonBody {
  import opened Text

  // ---------- Escaping ----------

  function EscapeChar(c: char): string {
    if c == '\\' then "\\\\"
    else if c == '"' then "\\\""
    else if c == '\n' then "\\n"
    else if c == '\r' then "\\r"
    else if c == '\t' then "\\t"
    else if c < ' ' then " "
    else [c]
  }

  function Escape(s: string): string {
    if s == "" then "" else Escape(s[..|s| - 1]) + EscapeChar(s[|s| - 1])
  }

  method JsonEscape(value: string) returns (escaped: string)
    ensures escaped == Escape(value)
  {
    escaped := "";
    for i := 0 to |value|
      invariant escaped == Escape(value[..i])
    {
      assert value[..i + 1][..i] == value[..i];
      match value[i]
      case '\\' => escaped := escaped + "\\\\";
      case '"' => escaped := escaped + "\\\"";
      case '\n' => escaped := escaped + "\\n";
      case '\r' => escaped := escaped + "\\r";
      case '\t' => escaped := escaped + "\\t";
      case c => escaped := escaped + if c < ' ' then " " else [c];
    }
    assert value[..|value|] == value;
  }

  // ---------- What a body means ----------

  datatype Scan = Scan(value: string, after: string) | NoScan

  /** The string up to the closing quote; a backslash stands for whatever character follows it. */
  function ScanQuoted(s: string, sofar: string): (r: Scan)
    ensures r.Scan? ==> |r.after| < |s|
  {
    if s == "" then NoScan
    else if s[0] == '\\' then (if |s| == 1 then NoScan else ScanQuoted(s[2..], sofar + [s[1]]))
    else if s[0] == '"' then Scan(sofar, s[1..])
    else ScanQuoted(s[1..], sofar + [s[0]])
  }

  /** The length of a value that is not quoted. */
  function BareLength(s: string): (n: nat)
    ensures n <= |s|
  {
    if s == "" || s[0] == ',' || s[0] == '}' then 0 else 1 + BareLength(s[1..])
  }

  function ScanValue(s: string): (r: Scan)
    ensures r.Scan? ==> |r.after| <= |s|
  {
    if s == "" then NoScan
    else if s[0] == '"' then ScanQuoted(s[1..], "")
    else Scan(Trim(s[..BareLength(s)]), s[BareLength(s)..])
  }

  /** A colon with white space around it. */
  function AfterColon(s: string): (r: Option<string>)
    ensures r.Some? ==> |r.value| < |s|
  {
    var t := TrimLeft(s);
    TrimShortens(s);
    if t == "" || t[0] != ':' then None
    else
      TrimShortens(t[1..]);
      Some(TrimLeft(t[1..]))
  }

  function AfterComma(s: string): (r: string)
    ensures |r| <= |s|
  {
    TrimShortens(s);
    var t := TrimLeft(s);
    if t != "" && t[0] == ',' then t[1..] else t
  }

  datatype Member = Member(key: string, value: string, after: string) | BadMember

  function MemberOf(s: string): (m: Member)
    ensures m.Member? ==> |m.after| < |s|
  {
    if s == "" || s[0] != '"' then BadMember
    else
      match ScanQuoted(s[1..], "")
      case NoScan => BadMember
      case Scan(key, rest) => MemberBehind(key, rest)
  }

  /** The rest of a member whose key has been read. */
  function MemberBehind(key: string, s: string): (m: Member)
    ensures m.Member? ==> |m.after| < |s|
  {
    match AfterColon(s)
    case None => BadMember
    case Some(start) => MemberWith(key, start)
  }

  function MemberWith(key: string, s: string): (m: Member)
    ensures m.Member? ==> |m.after| <= |s|
  {
    match ScanValue(s)
    case NoScan => BadMember
    case Scan(value, after) => Member(key, value, AfterComma(after))
  }

  type Fields = map<string, string>

  function With(fields: Fields, key: string, value: string): Fields {
    if key == "" then fields else fields[key := value]
  }

  datatype Outcome = Accepted(fields: Fields) | Rejected(fields: Fields)

  /** The members between the braces, added to what is already known. */
  function ParseMembers(s: string, fields: Fields): Outcome
    decreases |s|
  {
    TrimShortens(s);
    var t := TrimLeft(s);
    if t == "" then Accepted(fields)
    else if t[0] == ',' then ParseMembers(t[1..], fields)
    else
      match MemberOf(t)
      case BadMember => Rejected(fields)
      case Member(key, value, after) => ParseMembers(after, With(fields, key, value))
  }

  function Parse(body: string, fields: Fields): Outcome {
    var text := Trim(body);
    if text == "" then Accepted(fields)
    else if |text| < 2 || text[0] != '{' || text[|text| - 1] != '}' then Rejected(fields)
    else ParseMembers(text[1..|text| - 1], fields)
  }

  // ---------- The parser ----------

  method SkipBlanks(text: string, start: nat, limit: nat) returns (pos: nat)
    requires start <= limit <= |text|
    ensures start <= pos <= limit && text[pos..limit] == TrimLeft(text[start..limit])
  {
    pos := start;
    while pos < limit && IsSpace(text[pos])
      invariant start <= pos <= limit && TrimLeft(text[pos..limit]) == TrimLeft(text[start..limit])
    {
      assert text[pos..limit][1..] == text[pos + 1..limit];
      pos := pos + 1;
    }
  }

  /** trim_copy: the text without the white space at its ends. */
  method TrimCopy(value: string) returns (trimmed: string)
    ensures trimmed == Trim(value)
  {
    assert value[0..|value|] == value;
    var start := SkipBlanks(value, 0, |value|);
    var end := |value|;
    while end > start && IsSpace(value[end - 1])
      invariant start <= end <= |value| && TrimRight(value[start..end]) == Trim(value)
    {
      assert value[start..end][..end - start - 1] == value[start..end - 1];
      end := end - 1;
    }
    trimmed := value[start..end];
  }

  method ReadQuoted(text: string, start: nat, limit: nat) returns (ok: bool, value: string, pos: nat)
    requires start <= limit <= |text|
    ensures ok <==> ScanQuoted(text[start..limit], "").Scan?
    ensures ok ==> start <= pos <= limit && ScanQuoted(text[start..limit], "") == Scan(value, text[pos..limit])
  {
    value, pos := "", start;
    while pos < limit
      invariant start <= pos <= limit && ScanQuoted(text[pos..limit], value) == ScanQuoted(text[start..limit], "")
    {
      var rest := text[pos..limit];
      if text[pos] == '\\' {
        if pos + 1 >= limit { return false, "", pos; }
        assert rest[2..] == text[pos + 2..limit] && rest[1] == text[pos + 1];
        pos := pos + 1;
      } else {
        assert rest[1..] == text[pos + 1..limit];
        if text[pos] == '"' { return true, value, pos + 1; }
      }
      value := value + [text[pos]];
      pos := pos + 1;
    }
    return false, "", pos;
  }

  method ReadBare(text: string, start: nat, limit: nat) returns (value: string, pos: nat)
    requires start <= limit <= |text|
    ensures start <= pos <= limit && pos == start + BareLength(text[start..limit]) && value == Trim(text[start..pos])
  {
    pos := start;
    while pos < limit && text[pos] != ',' && text[pos] != '}'
      invariant start <= pos <= limit && pos + BareLength(text[pos..limit]) == start + BareLength(text[start..limit])
    {
      assert text[pos..limit][1..] == text[pos + 1..limit];
      pos := pos + 1;
    }
    value := TrimCopy(text[start..pos]);
  }

  method ReadValue(text: string, start: nat, limit: nat) returns (ok: bool, value: string, pos: nat)
    requires start <= limit <= |text|
    ensures ok <==> ScanValue(text[start..limit]).Scan?
    ensures ok ==> start <= pos <= limit && ScanValue(text[start..limit]) == Scan(value, text[pos..limit])
  {
    if start >= limit { return false, "", start; }
    var rest := text[start..limit];
    if text[start] == '"' {
      assert rest[1..] == text[start + 1..limit];
      ok, value, pos := ReadQuoted(text, start + 1, limit);
    } else {
      value, pos := ReadBare(text, start, limit);
      assert rest[..pos - start] == text[start..pos] && rest[pos - start..] == text[pos..limit];
      ok := true;
    }
  }

  method ReadColon(text: string, start: nat, limit: nat) returns (ok: bool, pos: nat)
    requires start <= limit <= |text|
    ensures ok <==> AfterColon(text[start..limit]).Some?
    ensures ok ==> start <= pos <= limit && AfterColon(text[start..limit]) == Some(text[pos..limit])
  {
    ok := false;
    pos := SkipBlanks(text, start, limit);
    if pos < limit {
      SliceTail(text, pos, limit);
      if text[pos] == ':' {
        pos := SkipBlanks(text, pos + 1, limit);
        ok := true;
      }
    }
  }

  lemma SliceTail(text: string, start: nat, limit: nat)
    requires start < limit <= |text|
    ensures text[start..limit] != "" && text[start..limit][0] == text[start] && text[start..limit][1..] == text[start + 1..limit]
  {
  }

  method ReadComma(text: string, start: nat, limit: nat) returns (pos: nat)
    requires start <= limit <= |text|
    ensures start <= pos <= limit && text[pos..limit] == AfterComma(text[start..limit])
  {
    pos := SkipBlanks(text, start, limit);
    if pos < limit {
      SliceTail(text, pos, limit);
      if text[pos] == ',' { pos := pos + 1; }
    }
  }

  /** The value of a member whose key has been read, and the comma that may follow it. */
  method ReadBehind(text: string, start: nat, limit: nat, ghost key: string) returns (ok: bool, value: string, pos: nat)
    requires start <= limit <= |text|
    ensures ok <==> MemberBehind(key, text[start..limit]).Member?
    ensures ok ==> start <= pos <= limit && MemberBehind(key, text[start..limit]) == Member(key, value, text[pos..limit])
  {
    value := "";
    ok, pos := ReadColon(text, start, limit);
    if ok {
      ok, value, pos := ReadValue(text, pos, limit);
      if ok { pos := ReadComma(text, pos, limit); }
    }
  }

  /** One member from its opening quote to behind the comma that may follow it. */
  method ReadMember(text: string, start: nat, limit: nat) returns (ok: bool, key: string, value: string, pos: nat)
    requires start < limit <= |text|
    ensures ok <==> MemberOf(text[start..limit]).Member?
    ensures ok ==> start < pos <= limit && MemberOf(text[start..limit]) == Member(key, value, text[pos..limit])
  {
    ok, key, value, pos := false, "", "", start;
    SliceTail(text, start, limit);
    if text[start] == '"' {
      ok, key, pos := ReadQuoted(text, start + 1, limit);
      if ok { ok, value, pos := ReadBehind(text, pos, limit, key); }
    }
  }

  /** White space, then a comma or one member. */
  method ReadNext(text: string, start: nat, limit: nat, known: Fields) returns (ok: bool, pos: nat, fields: Fields)
    requires start < limit <= |text|
    ensures start <= pos <= limit && (ok ==> start < pos)
    ensures ParseMembers(text[start..limit], known) ==
            if ok then ParseMembers(text[pos..limit], fields) else Rejected(fields)
  {
    ok, fields := true, known;
    pos := SkipBlanks(text, start, limit);
    if pos == limit { return; }
    SliceTail(text, pos, limit);
    if text[pos] == ',' {
      pos := pos + 1;
      return;
    }
    var key, value, next;
    ok, key, value, next := ReadMember(text, pos, limit);
    if ok {
      pos := next;
      if key != "" { fields := fields[key := value]; }
    }
  }

  /** The members between the braces, up to the end or to the first one that is no member. */
  method ReadMembers(text: string, start: nat, limit: nat, known: Fields) returns (ok: bool, fields: Fields)
    requires start <= limit <= |text|
    ensures ParseMembers(text[start..limit], known) == if ok then Accepted(fields) else Rejected(fields)
  {
    ok, fields := true, known;
    var pos := start;
    while ok && pos < limit
      invariant start <= pos <= limit
      invariant ParseMembers(text[start..limit], known) ==
                if ok then ParseMembers(text[pos..limit], fields) else Rejected(fields)
      decreases ok, limit - pos
    {
      ok, pos, fields := ReadNext(text, pos, limit, fields);
    }
  }

  /** parse_json_body: the fields it leaves are those of the body, also when it gives up halfway. */
  method ParseJsonBody(body: string, known: Fields) returns (ok: bool, fields: Fields)
    ensures Parse(body, known) == if ok then Accepted(fields) else Rejected(fields)
  {
    fields := known;
    var text := TrimCopy(body);
    if text == "" { return true, fields; }
    if |text| < 2 || text[0] != '{' || text[|text| - 1] != '}' { return false, fields; }
    ok, fields := ReadMembers(text, 1, |text| - 1, known);
  }

  // ---------- Round trip ----------

  datatype Pair = Pair(key: string, value: string)

  function EncodeMember(p: Pair): string { "\"" + Escape(p.key) + "\"" + ":" + "\"" + Escape(p.value) + "\"" }

  function EncodeMembers(pairs: seq<Pair>): string {
    if pairs == [] then ""
    else if |pairs| == 1 then EncodeMember(pairs[0])
    else EncodeMember(pairs[0]) + "," + EncodeMembers(pairs[1..])
  }

  /** An object built with json_escape. */
  function Encode(pairs: seq<Pair>): string { "{" + EncodeMembers(pairs) + "}" }

  /** What a character is after being escaped and read back. */
  function Returned(c: char): char {
    if c == '\n' then 'n' else if c == '\r' then 'r' else if c == '\t' then 't' else if c < ' ' then ' ' else c
  }

  function ReturnedString(s: string): (r: string)
    ensures |r| == |s|
  {
    seq(|s|, i requires 0 <= i < |s| => Returned(s[i]))
  }

  function Collect(pairs: seq<Pair>, fields: Fields): Fields {
    if pairs == [] then fields
    else Collect(pairs[1..], With(fields, ReturnedString(pairs[0].key), ReturnedString(pairs[0].value)))
  }

  lemma {:induction false} EscapeFirst(s: string)
    requires s != ""
    ensures Escape(s) == EscapeChar(s[0]) + Escape(s[1..])
    decreases |s|
  {
    var n := |s| - 1;
    if n > 0 {
      EscapeFirst(s[..n]);
      assert s[..n][1..] == s[1..][..n - 1];
    }
  }

  lemma ScanOne(c: char, tail: string, sofar: string)
    ensures ScanQuoted(EscapeChar(c) + tail, sofar) == ScanQuoted(tail, sofar + [Returned(c)])
  {
    var e := EscapeChar(c);
    assert (e + tail)[|e|..] == tail;
  }

  lemma ReturnedFirst(s: string, sofar: string)
    requires s != ""
    ensures sofar + ReturnedString(s) == (sofar + [Returned(s[0])]) + ReturnedString(s[1..])
  {
  }

  /** Reading an escaped string gives the string with its control characters replaced. */
  lemma {:induction false} ScanEscaped(s: string, rest: string, sofar: string)
    ensures ScanQuoted(Escape(s) + ("\"" + rest), sofar) == Scan(sofar + ReturnedString(s), rest)
    decreases |s|
  {
    if s == "" {
      assert Escape(s) + ("\"" + rest) == "\"" + rest && sofar + ReturnedString(s) == sofar;
    } else {
      var tail := Escape(s[1..]) + ("\"" + rest);
      calc {
        ScanQuoted(Escape(s) + ("\"" + rest), sofar);
        { EscapeFirst(s); assert Escape(s) + ("\"" + rest) == EscapeChar(s[0]) + tail; }
        ScanQuoted(EscapeChar(s[0]) + tail, sofar);
        { ScanOne(s[0], tail, sofar); }
        ScanQuoted(tail, sofar + [Returned(s[0])]);
        { ScanEscaped(s[1..], rest, sofar + [Returned(s[0])]); }
        Scan((sofar + [Returned(s[0])]) + ReturnedString(s[1..]), rest);
        { ReturnedFirst(s, sofar); }
        Scan(sofar + ReturnedString(s), rest);
      }
    }
  }

  function QuotedEscape(s: string, rest: string): string { "\"" + (Escape(s) + ("\"" + rest)) }

  lemma QuotedBack(s: string, rest: string)
    ensures QuotedEscape(s, rest)[0] == '"' && ScanQuoted(QuotedEscape(s, rest)[1..], "") == Scan(ReturnedString(s), rest)
  {
    assert QuotedEscape(s, rest)[1..] == Escape(s) + ("\"" + rest);
    ScanEscaped(s, rest, "");
    assert "" + ReturnedString(s) == ReturnedString(s);
  }

  lemma ColonBack(s: string)
    requires s != "" && !IsSpace(s[0])
    ensures AfterColon(":" + s) == Some(s)
  {
    assert (":" + s)[1..] == s;
  }

  lemma ValueBack(key: string, value: string, rest: string)
    requires rest == "" || rest[0] == ','
    ensures MemberWith(key, QuotedEscape(value, rest)) == Member(key, ReturnedString(value), if rest == "" then "" else rest[1..])
  {
    QuotedBack(value, rest);
  }

  lemma MemberShape(p: Pair, rest: string)
    ensures EncodeMember(p) + rest == QuotedEscape(p.key, ":" + QuotedEscape(p.value, rest))
  {
    var k, v := Escape(p.key), Escape(p.value);
    assert EncodeMember(p) + rest == "\"" + k + "\"" + ":" + "\"" + v + ("\"" + rest);
  }

  lemma MemberBack(p: Pair, rest: string)
    requires rest == "" || rest[0] == ','
    ensures MemberOf(EncodeMember(p) + rest)
            == Member(ReturnedString(p.key), ReturnedString(p.value), if rest == "" then "" else rest[1..])
  {
    var value := QuotedEscape(p.value, rest);
    var key := ReturnedString(p.key);
    calc {
      MemberOf(EncodeMember(p) + rest);
      { MemberShape(p, rest); }
      MemberOf(QuotedEscape(p.key, ":" + value));
      { QuotedBack(p.key, ":" + value); }
      MemberBehind(key, ":" + value);
      { ColonBack(value); }
      MemberWith(key, value);
      { ValueBack(key, p.value, rest); }
      Member(key, ReturnedString(p.value), if rest == "" then "" else rest[1..]);
    }
  }

  lemma {:induction false} MembersBack(pairs: seq<Pair>, fields: Fields)
    ensures ParseMembers(EncodeMembers(pairs), fields) == Accepted(Collect(pairs, fields))
    decreases |pairs|
  {
    if pairs != [] {
      var rest := if |pairs| == 1 then "" else "," + EncodeMembers(pairs[1..]);
      assert EncodeMembers(pairs) == EncodeMember(pairs[0]) + rest;
      MemberBack(pairs[0], rest);
      assert |pairs| > 1 ==> rest[1..] == EncodeMembers(pairs[1..]);
      assert |pairs| == 1 ==> EncodeMembers(pairs[1..]) == "";
      MembersBack(pairs[1..], With(fields, ReturnedString(pairs[0].key), ReturnedString(pairs[0].value)));
    }
  }

  /** Every object built with json_escape is accepted; each pair comes back with its control characters replaced. */
  lemma ObjectBack(pairs: seq<Pair>, fields: Fields)
    ensures Parse(Encode(pairs), fields) == Accepted(Collect(pairs, fields))
  {
    var text := Encode(pairs);
    assert text[0] == '{' && text[|text| - 1] == '}';
    assert Trim(text) == text;
    assert text[1..|text| - 1] == EncodeMembers(pairs);
    MembersBack(pairs, fields);
  }

  /** A string survives the trip exactly when it has no control character. */
  lemma SurvivesIffPrintable(s: string)
    ensures ReturnedString(s) == s <==> forall c <- s :: c >= ' '
  {
    if ReturnedString(s) == s {
      forall c | c in s ensures c >= ' ' {
        var i :| 0 <= i < |s| && s[i] == c;
        assert ReturnedString(s)[i] == s[i];
      }
    }
    if forall c <- s :: c >= ' ' {
      forall i | 0 <= i < |s| ensures ReturnedString(s)[i] == s[i] { assert s[i] in s; }
    }
  }

  predicate Printable(p: Pair) { p.key != "" && (forall c <- p.key :: c >= ' ') && (forall c <- p.value :: c >= ' ') }

  /** The value of a key: that of the last pair with it. */
  function LastValue(pairs: seq<Pair>, key: string): Option<string> {
    if pairs == [] then None
    else
      match LastValue(pairs[1..], key)
      case Some(v) => Some(v)
      case None => if pairs[0].key == key then Some(pairs[0].value) else None
  }

  function Lookup(fields: Fields, key: string): Option<string> {
    if key in fields then Some(fields[key]) else None
  }

  lemma {:induction false} CollectLast(pairs: seq<Pair>, fields: Fields, key: string)
    requires forall p <- pairs :: Printable(p)
    ensures Lookup(Collect(pairs, fields), key)
            == match LastValue(pairs, key) { case Some(v) => Some(v) case None => Lookup(fields, key) }
    decreases |pairs|
  {
    if pairs != [] {
      assert Printable(pairs[0]);
      SurvivesIffPrintable(pairs[0].key);
      SurvivesIffPrintable(pairs[0].value);
      CollectLast(pairs[1..], With(fields, pairs[0].key, pairs[0].value), key);
    }
  }

  /** For pairs without control characters the parser gives back exactly the map, the last duplicate winning. */
  lemma RoundTrip(pairs: seq<Pair>)
    requires forall p <- pairs :: Printable(p)
    ensures Parse(Encode(pairs), map[]).Accepted?
    ensures forall key :: Lookup(Parse(Encode(pairs), map[]).fields, key) == LastValue(pairs, key)
  {
    ObjectBack(pairs, map[]);
    forall key ensures Lookup(Collect(pairs, map[]), key) == LastValue(pairs, key) { CollectLast(pairs, map[], key); }
  }
}
