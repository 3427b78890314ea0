/** Byte-string helpers shared by the parsers.  A byte is a `char`; every result holds for all byte values. */
module Text {

  datatype Option<+T> = None | Some(value: T)

  const CRLF := "\r\n"

  predicate OccursAt(s: string, pattern: string, i: nat) {
    i + |pattern| <= |s| && s[i..i + |pattern|] == pattern
  }

  /** The first position at or after `from` where `pattern` starts, or -1 (std::string::find). */
  function Find(s: string, pattern: string, from: nat): (r: int)
    requires from <= |s|
    ensures r == -1 || from <= r <= |s| - |pattern|
    decreases |s| - from
  {
    if OccursAt(s, pattern, from) then from
    else if from == |s| then -1
    else Find(s, pattern, from + 1)
  }

  ghost predicate AbsentBetween(s: string, pattern: string, from: nat, to: nat) {
    forall j: nat :: from <= j < to ==> !OccursAt(s, pattern, j)
  }

  /** Find returns the first occurrence, and -1 when there is none. */
  lemma {:induction false} FindFacts(s: string, pattern: string, from: nat)
    requires from <= |s|
    ensures var r := Find(s, pattern, from);
            if r >= 0 then OccursAt(s, pattern, r) && AbsentBetween(s, pattern, from, r)
            else AbsentBetween(s, pattern, from, |s| + 1)
    decreases |s| - from
  {
    if !OccursAt(s, pattern, from) && from < |s| { FindFacts(s, pattern, from + 1); }
  }

  /** The facts determine the result. */
  lemma {:induction false} FindIs(s: string, pattern: string, from: nat, r: int)
    requires from <= |s| && (r == -1 || from <= r <= |s|)
    requires r >= 0 ==> OccursAt(s, pattern, r) && AbsentBetween(s, pattern, from, r)
    requires r == -1 ==> AbsentBetween(s, pattern, from, |s| + 1)
    ensures Find(s, pattern, from) == r
    decreases |s| - from
  {
    if r != from && from < |s| {
      assert !OccursAt(s, pattern, from);
      FindIs(s, pattern, from + 1, r);
    } else if r != from {
      assert !OccursAt(s, pattern, from);
    }
  }

  /** An occurrence inside a prefix is an occurrence, and inside the prefix nothing else is. */
  lemma OccursInPrefix(a: string, b: string, pattern: string, i: nat)
    requires i + |pattern| <= |a|
    ensures OccursAt(a + b, pattern, i) <==> OccursAt(a, pattern, i)
  {
    assert (a + b)[i..i + |pattern|] == a[i..i + |pattern|];
  }

  lemma OccursInSuffix(a: string, b: string, pattern: string, i: nat)
    requires i >= |a|
    ensures OccursAt(a + b, pattern, i) <==> OccursAt(b, pattern, i - |a|)
  {
    if i + |pattern| <= |a + b| {
      assert (a + b)[i..i + |pattern|] == b[i - |a|..i - |a| + |pattern|];
    }
  }

  lemma AbsentInPrefix(a: string, b: string, pattern: string, n: nat)
    requires AbsentBetween(a, pattern, 0, n) && n + |pattern| <= |a| + 1
    ensures AbsentBetween(a + b, pattern, 0, n)
  {
    forall j: nat | j < n ensures !OccursAt(a + b, pattern, j) { OccursInPrefix(a, b, pattern, j); }
  }

  lemma AbsentInSuffix(a: string, b: string, pattern: string, n: nat)
    requires AbsentBetween(b, pattern, 0, n)
    ensures AbsentBetween(a + b, pattern, |a|, |a| + n)
  {
    forall j: nat | |a| <= j < |a| + n ensures !OccursAt(a + b, pattern, j) { OccursInSuffix(a, b, pattern, j); }
  }

  lemma AbsentJoin(s: string, pattern: string, a: nat, b: nat, c: nat)
    requires AbsentBetween(s, pattern, a, b) && AbsentBetween(s, pattern, b, c)
    ensures AbsentBetween(s, pattern, a, c)
  {
  }

  /** More input does not move the first occurrence once it is there. */
  lemma FindStable(a: string, b: string, pattern: string)
    requires Find(a, pattern, 0) >= 0
    ensures Find(a + b, pattern, 0) == Find(a, pattern, 0)
  {
    var r := Find(a, pattern, 0);
    FindFacts(a, pattern, 0);
    OccursInPrefix(a, b, pattern, r);
    AbsentInPrefix(a, b, pattern, r);
    FindIs(a + b, pattern, 0, r);
  }

  /** A prefix without an occurrence shifts the first one. */
  lemma FindBehind(a: string, b: string, pattern: string)
    requires AbsentBetween(a + b, pattern, 0, |a|)
    ensures Find(a + b, pattern, 0) == if Find(b, pattern, 0) < 0 then -1 else |a| + Find(b, pattern, 0)
  {
    FindFacts(b, pattern, 0);
    var r := Find(b, pattern, 0);
    var n := if r < 0 then |b| + 1 else r;
    AbsentInSuffix(a, b, pattern, n);
    AbsentJoin(a + b, pattern, 0, |a|, |a| + n);
    if r >= 0 { OccursInSuffix(a, b, pattern, |a| + r); }
    FindIs(a + b, pattern, 0, if r < 0 then -1 else |a| + r);
  }

  lemma CrlfAt(s: string, i: nat)
    ensures OccursAt(s, CRLF, i) <==> i + 1 < |s| && s[i] == '\r' && s[i + 1] == '\n'
  {
    if i + 2 <= |s| { assert s[i..i + 2] == [s[i], s[i + 1]]; }
  }

  /** A line without CR ends at the CRLF that is put after it. */
  lemma LineEnds(line: string, rest: string)
    requires '\r' !in line
    ensures Find(line + CRLF + rest, CRLF, 0) == |line|
    ensures (line + CRLF + rest)[..|line|] == line && (line + CRLF + rest)[|line| + 2..] == rest
  {
    var s := line + CRLF + rest;
    CrlfAt(s, |line|);
    forall j: nat | j < |line| ensures !OccursAt(s, CRLF, j) { CrlfAt(s, j); }
    FindIs(s, CRLF, 0, |line|);
  }

  // ---------- Integers ----------

  /** The conversion of a long to an int. */
  function Int32(x: int): int {
    var low := x % 0x1_0000_0000;
    if low < 0x8000_0000 then low else low - 0x1_0000_0000
  }

  /** A length survives the conversion exactly when it is below 2^31. */
  lemma FitsInt32(n: nat)
    ensures Int32(n) == n <==> n < 0x8000_0000
  {
  }

  // ---------- Character classes ----------

  predicate IsSpace(c: char) { c == ' ' || '\t' <= c <= '\r' }
  predicate IsDigit(c: char) { '0' <= c <= '9' }
  predicate IsHexDigit(c: char) { IsDigit(c) || 'a' <= c <= 'f' || 'A' <= c <= 'F' }

  function HexDigitValue(c: char): (v: nat)
    requires IsHexDigit(c)
    ensures v < 16
  {
    if IsDigit(c) then (c as int - '0' as int)
    else if 'a' <= c <= 'f' then (c as int - 'a' as int + 10)
    else (c as int - 'A' as int + 10)
  }

  // ---------- White space at the ends ----------

  function TrimLeft(s: string): string {
    if s != "" && IsSpace(s[0]) then TrimLeft(s[1..]) else s
  }

  function TrimRight(s: string): string {
    if s != "" && IsSpace(s[|s| - 1]) then TrimRight(s[..|s| - 1]) else s
  }

  function Trim(s: string): string { TrimRight(TrimLeft(s)) }

  lemma {:induction false} TrimShortens(s: string)
    ensures |TrimLeft(s)| <= |s| && |TrimRight(s)| <= |s|
    decreases |s|
  {
    if s != "" {
      TrimShortens(s[1..]);
      TrimShortens(s[..|s| - 1]);
    }
  }
}
