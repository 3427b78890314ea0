/** File names: sanitizing what a client sends, and finding a free name in a folder. */
module FileNames {
  import opened Text

  const FILENAME_MAX_LENGTH := 80

  // ---------- Sanitizing ----------

  predicate IsAlnum(c: char) { IsDigit(c) || 'a' <= c <= 'z' || 'A' <= c <= 'Z' }
  predicate KeptAscii(c: char) { IsAlnum(c) || c in "._-()[]" }

  /** Length of the UTF-8 sequence that a lead byte announces, if it is a lead byte. */
  function LeadLength(c: char): nat {
    if 0xC0 <= c as int < 0xE0 then 2 else if 0xE0 <= c as int < 0xF0 then 3 else if 0xF0 <= c as int < 0xF8 then 4 else 0
  }

  /** Keeps safe ASCII and whole multi-byte sequences, and squeezes white space. */
  function Clean(value: string, i: nat, cleaned: string, previousSpace: bool): (r: string)
    requires i <= |value|
    ensures |cleaned| <= |r| && (cleaned != "" ==> r[0] == cleaned[0])
    ensures cleaned == "" && r != "" ==> r[0] != ' '
    decreases |value| - i
  {
    if i == |value| then cleaned
    else
      var c := value[i];
      if c as int < 0x80 then
        if KeptAscii(c) then Clean(value, i + 1, cleaned + [c], false)
        else if IsSpace(c) && cleaned != "" && !previousSpace then Clean(value, i + 1, cleaned + " ", true)
        else Clean(value, i + 1, cleaned, previousSpace)
      else
        var n := LeadLength(c);
        if n > 0 && i + n <= |value| then Clean(value, i + n, cleaned + value[i..i + n], false)
        else Clean(value, i + 1, cleaned, previousSpace)
  }

  function DropTrailingBlanks(s: string): (r: string)
    ensures r <= s && (r != "" ==> r[|r| - 1] != ' ')
  {
    if s != "" && s[|s| - 1] == ' ' then DropTrailingBlanks(s[..|s| - 1]) else s
  }

  function Head(s: string): string { if |s| > FILENAME_MAX_LENGTH then s[..FILENAME_MAX_LENGTH] else s }

  function SanitizeFilename(value: string): (r: string)
    ensures 0 < |r| <= FILENAME_MAX_LENGTH
    ensures r[0] != ' ' && r != "." && r != ".."
    ensures |r| < FILENAME_MAX_LENGTH ==> r[|r| - 1] != ' '
  {
    var cleaned := DropTrailingBlanks(Clean(value, 0, "", false));
    Head(if cleaned == "" || cleaned == "." || cleaned == ".." then "file.txt" else cleaned)
  }

  // ---------- What a sanitized name is free of ----------

  /** What the filter of single characters drops: separators, quotes, control bytes and the like. */
  predicate Unwanted(c: char) { c as int < 0x80 && !KeptAscii(c) && c != ' ' }

  predicate Clear(s: string) { forall c <- s :: !Unwanted(c) }

  predicate TailIsWanted(value: string, i: nat, n: nat, kept: nat)
    requires i + n <= |value|
  {
    forall j :: i < j < i + n && kept + (j - i) < FILENAME_MAX_LENGTH ==> !Unwanted(value[j])
  }

  /**
   No multi-byte sequence that the scan copies brings an unwanted byte into the part of the name that is not cut:
   the bytes behind a lead byte are copied unseen.
   */
  predicate CopiesOnlyWanted(value: string, i: nat, kept: nat, previousSpace: bool)
    requires i <= |value|
    decreases |value| - i
  {
    i == |value| ||
    var c := value[i];
    if c as int < 0x80 then
      if KeptAscii(c) then CopiesOnlyWanted(value, i + 1, kept + 1, false)
      else if IsSpace(c) && kept > 0 && !previousSpace then CopiesOnlyWanted(value, i + 1, kept + 1, true)
      else CopiesOnlyWanted(value, i + 1, kept, previousSpace)
    else
      var n := LeadLength(c);
      if n > 0 && i + n <= |value| then
        && TailIsWanted(value, i, n, kept)
        && CopiesOnlyWanted(value, i + n, kept + n, false)
      else CopiesOnlyWanted(value, i + 1, kept, previousSpace)
  }

  lemma HeadAppend(a: string, b: string)
    ensures Clear(Head(a + b)) <==>
            Clear(Head(a)) && forall k :: 0 <= k < |b| && |a| + k < FILENAME_MAX_LENGTH ==> !Unwanted(b[k])
  {
    var h := Head(a + b);
    if Clear(h) {
      forall c | c in Head(a) ensures !Unwanted(c) {
        var k :| 0 <= k < |Head(a)| && Head(a)[k] == c;
        assert h[k] == c;
      }
      forall k | 0 <= k < |b| && |a| + k < FILENAME_MAX_LENGTH ensures !Unwanted(b[k]) { assert h[|a| + k] == b[k]; }
    }
    if Clear(Head(a)) && forall k :: 0 <= k < |b| && |a| + k < FILENAME_MAX_LENGTH ==> !Unwanted(b[k]) {
      forall c | c in h ensures !Unwanted(c) {
        var k :| 0 <= k < |h| && h[k] == c;
        assert if k < |a| then c == Head(a)[k] else c == b[k - |a|];
      }
    }
  }

  lemma WantedAppend(a: string, c: char)
    requires !Unwanted(c)
    ensures Clear(Head(a + [c])) <==> Clear(Head(a))
  {
    HeadAppend(a, [c]);
  }

  lemma {:induction false} CleanIsClearIff(value: string, i: nat, cleaned: string, previousSpace: bool)
    requires i <= |value|
    ensures Clear(Head(Clean(value, i, cleaned, previousSpace))) <==>
            Clear(Head(cleaned)) && CopiesOnlyWanted(value, i, |cleaned|, previousSpace)
    decreases |value| - i
  {
    if i < |value| {
      var c := value[i];
      var n := LeadLength(c);
      if c as int < 0x80 {
        if KeptAscii(c) {
          WantedAppend(cleaned, c);
          CleanIsClearIff(value, i + 1, cleaned + [c], false);
        } else if IsSpace(c) && cleaned != "" && !previousSpace {
          WantedAppend(cleaned, ' ');
          CleanIsClearIff(value, i + 1, cleaned + " ", true);
        } else {
          CleanIsClearIff(value, i + 1, cleaned, previousSpace);
        }
      } else if n > 0 && i + n <= |value| {
        SequenceIsClearIff(value, i, cleaned);
        CleanIsClearIff(value, i + n, cleaned + value[i..i + n], false);
      } else {
        CleanIsClearIff(value, i + 1, cleaned, previousSpace);
      }
    }
  }

  lemma SequenceIsClearIff(value: string, i: nat, cleaned: string)
    requires i < |value| && value[i] as int >= 0x80
    requires var n := LeadLength(value[i]); n > 0 && i + n <= |value|
    ensures var n := LeadLength(value[i]);
            Clear(Head(cleaned + value[i..i + n])) <==> Clear(Head(cleaned)) && TailIsWanted(value, i, n, |cleaned|)
  {
    var n := LeadLength(value[i]);
    var b := value[i..i + n];
    HeadAppend(cleaned, b);
    assert b[0] == value[i];
    forall j | i < j < i + n ensures b[j - i] == value[j] {}
    if TailIsWanted(value, i, n, |cleaned|) {
      forall k | 0 <= k < |b| && |cleaned| + k < FILENAME_MAX_LENGTH ensures !Unwanted(b[k]) {
        assert b[k] == value[i + k];
      }
    }
  }

  lemma {:induction false} BlanksAreClear(s: string)
    ensures Clear(Head(DropTrailingBlanks(s))) <==> Clear(Head(s))
  {
    if s != "" && s[|s| - 1] == ' ' {
      BlanksAreClear(s[..|s| - 1]);
      WantedAppend(s[..|s| - 1], ' ');
      assert s == s[..|s| - 1] + " ";
    }
  }

  /** A sanitized name holds no unwanted byte exactly when no copied sequence carries one into its first 80 bytes. */
  lemma SanitizedIsClearIff(value: string)
    ensures Clear(SanitizeFilename(value)) <==> CopiesOnlyWanted(value, 0, 0, false)
  {
    CleanIsClearIff(value, 0, "", false);
    BlanksAreClear(Clean(value, 0, "", false));
  }

  /** Every byte that a lead byte announces is there and is no ASCII byte, as in any UTF-8 text. */
  predicate Utf8Shaped(value: string) {
    forall i, k :: 0 <= i < k < |value| && k < i + LeadLength(value[i]) ==> value[k] as int >= 0x80
  }

  lemma {:induction false} Utf8CopiesOnlyWanted(value: string, i: nat, kept: nat, previousSpace: bool)
    requires Utf8Shaped(value) && i <= |value|
    ensures CopiesOnlyWanted(value, i, kept, previousSpace)
    decreases |value| - i
  {
    if i < |value| {
      var c := value[i];
      var n := LeadLength(c);
      if c as int < 0x80 {
        if KeptAscii(c) {
          Utf8CopiesOnlyWanted(value, i + 1, kept + 1, false);
        } else {
          Utf8CopiesOnlyWanted(value, i + 1, kept + 1, true);
          Utf8CopiesOnlyWanted(value, i + 1, kept, previousSpace);
        }
      } else if n > 0 && i + n <= |value| {
        Utf8CopiesOnlyWanted(value, i + n, kept + n, false);
      } else {
        Utf8CopiesOnlyWanted(value, i + 1, kept, previousSpace);
      }
    }
  }

  /** Names that are UTF-8 text come out clear; a byte behind a lead byte that announces another may not. */
  lemma SanitizedUtf8IsClear(value: string)
    requires Utf8Shaped(value)
    ensures Clear(SanitizeFilename(value))
  {
    Utf8CopiesOnlyWanted(value, 0, 0, false);
    SanitizedIsClearIff(value);
  }

  lemma SeparatorBehindLeadByteStays()
    ensures SanitizeFilename([0xC3 as char, '/']) == [0xC3 as char, '/']
  {
    var value := [0xC3 as char, '/'];
    assert value[0..2] == value && "" + value == value;
    assert Clean(value, 0, "", false) == Clean(value, 2, value, false);
  }

  // ---------- Candidates for a free name ----------

  /** The last position of one of the characters, or -1 (std::string::find_last_of). */
  function FindLastOf(s: string, chars: string): (r: int)
    ensures -1 <= r < |s|
    ensures r >= 0 ==> s[r] in chars
    ensures forall k :: r < k < |s| ==> s[k] !in chars
  {
    if s == "" then -1
    else if s[|s| - 1] in chars then |s| - 1
    else FindLastOf(s[..|s| - 1], chars)
  }

  /** The part from the last dot on, unless a separator follows that dot. */
  function FileExtension(name: string): (ext: string)
    ensures |ext| <= |name| && name[|name| - |ext|..] == ext
  {
    var slash := FindLastOf(name, "/\\");
    var dot := FindLastOf(name, ".");
    if dot < 0 || (slash >= 0 && dot < slash + 1) then "" else name[dot..]
  }

  /** The extension starts at the last dot and holds no separator; it is empty exactly when a separator follows every dot. */
  lemma ExtensionIsLast(name: string)
    ensures var ext := FileExtension(name);
            if ext != "" then ext[0] == '.' && (forall c <- ext[1..] :: c !in "./\\")
            else forall i :: 0 <= i < |name| && name[i] == '.' ==> exists j :: i < j < |name| && name[j] in "/\\"
  {
    var ext := FileExtension(name);
    var slash, dot := FindLastOf(name, "/\\"), FindLastOf(name, ".");
    if ext != "" {
      forall c | c in ext[1..] ensures c !in "./\\" {
        var k :| 0 <= k < |ext| - 1 && ext[1..][k] == c;
        assert name[dot + 1 + k] == c;
      }
    }
  }

  function Decimal(n: nat): (r: string)
    ensures r != "" && forall c <- r :: IsDigit(c)
  {
    var digit := [('0' as int + n % 10) as char];
    if n < 10 then digit else Decimal(n / 10) + digit
  }

  function Suffix(index: nat): string { " (" + Decimal(index) + ")" }

  const SIZE_T := 0x1_0000_0000_0000_0000

  /** The stem a candidate keeps; the subtraction is of size_t and wraps when the rest alone is too long. */
  function Stem(name: string, index: nat): string {
    var ext := FileExtension(name);
    var stem := name[..|name| - |ext|];
    if |stem| + |Suffix(index)| + |ext| > FILENAME_MAX_LENGTH then
      var maxStem := (FILENAME_MAX_LENGTH - |Suffix(index)| - |ext|) % SIZE_T;
      if maxStem < |stem| then stem[..maxStem] else stem
    else stem
  }

  function Candidate(name: string, index: int): string {
    if index <= 0 then name else Stem(name, index) + Suffix(index) + FileExtension(name)
  }

  lemma {:induction false} DecimalInjective(m: nat, n: nat)
    requires Decimal(m) == Decimal(n)
    ensures m == n
    decreases m + n
  {
    var a, b := Decimal(m), Decimal(n);
    assert a[|a| - 1] == ('0' as int + m % 10) as char && b[|b| - 1] == ('0' as int + n % 10) as char;
    if m >= 10 && n >= 10 {
      assert a[..|a| - 1] == Decimal(m / 10) && b[..|b| - 1] == Decimal(n / 10);
      DecimalInjective(m / 10, n / 10);
    }
  }

  lemma DigitInside(stem: string, n: nat, ext: string, at: nat)
    requires |stem| + 2 <= at < |stem| + 2 + |Decimal(n)|
    ensures IsDigit((stem + Suffix(n) + ext)[at])
  {
    assert (stem + Suffix(n) + ext)[at] == Decimal(n)[at - |stem| - 2];
  }

  /** The parenthesis that opens the number is the last one before the extension, so it fixes the number. */
  lemma ShorterNumber(stem: string, stem': string, m: nat, n: nat, ext: string)
    requires stem + Suffix(m) + ext == stem' + Suffix(n) + ext
    ensures |Decimal(m)| >= |Decimal(n)|
  {
    assert (stem + Suffix(m) + ext)[|stem| + 1] == '(';
    if |Decimal(m)| < |Decimal(n)| { DigitInside(stem', n, ext, |stem| + 1); }
  }

  lemma SameLength(stem: string, stem': string, m: nat, n: nat, ext: string)
    requires stem + Suffix(m) + ext == stem' + Suffix(n) + ext && |Decimal(m)| == |Decimal(n)|
    ensures |stem| == |stem'|
  {
    assert |stem + Suffix(m) + ext| == |stem| + |Decimal(m)| + 3 + |ext|;
    assert |stem' + Suffix(n) + ext| == |stem'| + |Decimal(n)| + 3 + |ext|;
  }

  lemma NumberInside(stem: string, n: nat, ext: string)
    ensures var name := stem + Suffix(n) + ext;
            |stem| + 2 + |Decimal(n)| <= |name| && name[|stem| + 2..|stem| + 2 + |Decimal(n)|] == Decimal(n)
  {
    assert stem + Suffix(n) + ext == (stem + " (") + Decimal(n) + (")" + ext);
  }

  /** No two numbered candidates of a name coincide, however much of its stem is cut off. */
  lemma CandidatesDistinct(name: string, m: nat, n: nat)
    requires 0 < m && 0 < n && m != n
    ensures Candidate(name, m) != Candidate(name, n)
  {
    var ext := FileExtension(name);
    if Candidate(name, m) == Candidate(name, n) {
      ShorterNumber(Stem(name, m), Stem(name, n), m, n, ext);
      ShorterNumber(Stem(name, n), Stem(name, m), n, m, ext);
      SameLength(Stem(name, m), Stem(name, n), m, n, ext);
      NumberInside(Stem(name, m), m, ext);
      NumberInside(Stem(name, n), n, ext);
      DecimalInjective(m, n);
    }
  }

  lemma {:induction false} DecimalLength(n: nat)
    ensures n < 10 ==> |Decimal(n)| == 1
    ensures n < 100 ==> |Decimal(n)| <= 2
    ensures n < 1000 ==> |Decimal(n)| <= 3
    ensures n < 10000 ==> |Decimal(n)| <= 4
  {
    if n >= 10 { DecimalLength(n / 10); }
  }

  lemma WrapsBelowZero(x: int)
    requires -SIZE_T <= x < SIZE_T
    ensures x % SIZE_T == if x >= 0 then x else x + SIZE_T
  {
  }

  lemma StemLength(name: string, index: nat)
    requires |name| <= FILENAME_MAX_LENGTH && |Suffix(index)| <= 7
    ensures var taken := |Suffix(index)| + |FileExtension(name)|;
            |Stem(name, index)| == if taken <= FILENAME_MAX_LENGTH < |name| + |Suffix(index)| then FILENAME_MAX_LENGTH - taken
                                   else |name| - |FileExtension(name)|
  {
    var room := FILENAME_MAX_LENGTH - |Suffix(index)| - |FileExtension(name)|;
    assert room >= -7;
    WrapsBelowZero(room);
  }

  /**
   The length limit holds exactly as long as the number and the extension leave room for it.  When they
   do not, the wrapped subtraction keeps the whole stem, and the candidate can reach 87 bytes.
   */
  lemma CandidateLength(name: string, index: nat)
    requires |name| <= FILENAME_MAX_LENGTH && index <= 1000
    ensures |Candidate(name, index)| <= FILENAME_MAX_LENGTH
            <==> index == 0 || |Suffix(index)| + |FileExtension(name)| <= FILENAME_MAX_LENGTH
    ensures |Candidate(name, index)| <= 87
  {
    DecimalLength(index);
    StemLength(name, index);
  }

  // ---------- The search ----------

  /** A class of names that the database's collation holds equal. */
  type Key = int

  /** The name the search settles on: the first candidate that is free or whose lookup fails. */
  function FirstFree(name: string, fold: string -> Key, used: set<Key>, fails: set<int>, index: nat): (k: nat)
    requires index <= 1000
    ensures index <= k <= 1000
    ensures k < 1000 ==> k in fails || fold(Candidate(name, k)) !in used
    ensures forall i :: index <= i < k ==> i !in fails && fold(Candidate(name, i)) in used
    decreases 1000 - index
  {
    if index == 1000 || index in fails || fold(Candidate(name, index)) !in used then index
    else FirstFree(name, fold, used, fails, index + 1)
  }

  /**
   `used` are the classes of the active names of the folder under the collation `fold`, `fails` the lookups the
   database does not answer.
   */
  method EnsureUniqueOwnedFilename(requested: string, fold: string -> Key, used: set<Key>, fails: set<int>) returns (name: string)
    ensures var safe := SanitizeFilename(requested); name == Candidate(safe, FirstFree(safe, fold, used, fails, 0))
    ensures |name| <= 87
    ensures fails == {} && |used| < |Classes(SanitizeFilename(requested), fold)| ==> fold(name) !in used
  {
    var safe := SanitizeFilename(requested);
    ghost var k := FirstFree(safe, fold, used, fails, 0);
    CandidateLength(safe, k);
    if fails == {} && |used| < |Classes(safe, fold)| { FreeWhenFewUsed(safe, fold, used); }
    for index := 0 to 1000
      invariant FirstFree(safe, fold, used, fails, index) == k
    {
      var candidate := Candidate(safe, index);
      if index in fails { return candidate; }
      if fold(candidate) !in used { return candidate; }
    }
    return Candidate(safe, 1000);
  }

  /** With every lookup answered, the name returned is in use exactly when all 1001 candidates are. */
  lemma InUseIffAllTaken(name: string, fold: string -> Key, used: set<Key>)
    ensures fold(Candidate(name, FirstFree(name, fold, used, {}, 0))) in used
            <==> forall i :: 0 <= i <= 1000 ==> fold(Candidate(name, i)) in used
  {
    var k := FirstFree(name, fold, used, {}, 0);
    assert k == 1000 || fold(Candidate(name, k)) !in used;
  }

  /** How the collation sees the candidates. */
  ghost function Keys(name: string, fold: string -> Key): (keys: seq<Key>)
    ensures |keys| == 1001 && forall i :: 0 <= i <= 1000 ==> keys[i] == fold(Candidate(name, i))
  {
    seq(1001, i => fold(Candidate(name, i)))
  }

  ghost function Classes(name: string, fold: string -> Key): set<Key> { set k | k in Keys(name, fold) }

  lemma SmallerSet(a: set<Key>, b: set<Key>)
    requires a <= b
    ensures |a| <= |b|
  {
    assert b == a + (b - a);
  }

  /** Fewer names in use than the candidates have classes cannot occupy them all, the unchecked last one included. */
  lemma FreeWhenFewUsed(name: string, fold: string -> Key, used: set<Key>)
    requires |used| < |Classes(name, fold)|
    ensures fold(Candidate(name, FirstFree(name, fold, used, {}, 0))) !in used
  {
    InUseIffAllTaken(name, fold, used);
    if fold(Candidate(name, FirstFree(name, fold, used, {}, 0))) in used {
      SmallerSet(Classes(name, fold), used);
    }
  }

  /** The collation tells any two of the numbered candidates apart, if they differ. */
  ghost predicate Separates(name: string, fold: string -> Key) {
    forall i, j :: 0 < i < j <= 1000 && Candidate(name, i) != Candidate(name, j) ==> fold(Candidate(name, i)) != fold(Candidate(name, j))
  }

  lemma {:induction false} DistinctCount(keys: seq<Key>)
    requires forall i, j :: 0 <= i < j < |keys| ==> keys[i] != keys[j]
    ensures |set k | k in keys| == |keys|
  {
    if keys != [] {
      var rest, last := keys[..|keys| - 1], keys[|keys| - 1];
      DistinctCount(rest);
      assert last !in rest;
      assert (set k | k in keys) == (set k | k in rest) + {last};
    }
  }

  lemma TailCount(keys: seq<Key>)
    requires keys != [] && forall i, j :: 0 < i < j < |keys| ==> keys[i] != keys[j]
    ensures |set k | k in keys| >= |keys| - 1
  {
    DistinctCount(keys[1..]);
    SmallerSet((set k | k in keys[1..]), (set k | k in keys));
  }

  lemma KeysDistinct(name: string, fold: string -> Key, i: nat, j: nat)
    requires Separates(name, fold) && 0 < i < j <= 1000
    ensures Keys(name, fold)[i] != Keys(name, fold)[j]
  {
    CandidatesDistinct(name, i, j);
  }

  /** A collation that tells different candidates apart leaves room for any folder of fewer than 1000 names. */
  lemma ThousandClasses(name: string, fold: string -> Key)
    requires Separates(name, fold)
    ensures |Classes(name, fold)| >= 1000
  {
    var keys := Keys(name, fold);
    forall i, j | 0 < i < j < |keys| ensures keys[i] != keys[j] { KeysDistinct(name, fold, i, j); }
    TailCount(keys);
  }
}
