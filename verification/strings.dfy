/** The Python `str` operations the protocol code relies on: `in` (substring
    test), `strip`, `rstrip(c)`, `lower`, `split(sep)`, `replace`, `join`,
    `repr` and decimal formatting of integers, each written out over `seq<char>`. */
module Strings {
  import opened Wrappers

  // ---------------------------------------------------------------- whitespace

  /** Python's `str.isspace` for a single character: the ASCII whitespace and
      separator controls plus the Unicode space separators. */
  predicate IsSpace(c: char) {
    c == ' ' || c == '\t' || c == '\n' || c == '\r' || c == '\U{000B}' || c == '\U{000C}'
    || c == '\U{001C}' || c == '\U{001D}' || c == '\U{001E}' || c == '\U{001F}'
    || c == '\U{0085}' || c == '\U{00A0}' || c == '\U{1680}'
    || ('\U{2000}' <= c <= '\U{200A}')
    || c == '\U{2028}' || c == '\U{2029}' || c == '\U{202F}' || c == '\U{205F}' || c == '\U{3000}'
  }

  /** `s.lstrip()`: drop leading whitespace. */
  function TrimLeft(s: string): (r: string)
    ensures |r| <= |s| && r == s[|s| - |r|..]
    ensures forall i :: 0 <= i < |s| - |r| ==> IsSpace(s[i])
    ensures |r| > 0 ==> !IsSpace(r[0])
  {
    if |s| > 0 && IsSpace(s[0]) then TrimLeft(s[1..]) else s
  }

  /** `s.rstrip()`: drop trailing whitespace. */
  function TrimRight(s: string): (r: string)
    ensures |r| <= |s| && r == s[..|r|]
    ensures forall i :: |r| <= i < |s| ==> IsSpace(s[i])
    ensures |r| > 0 ==> !IsSpace(r[|r| - 1])
  {
    if |s| > 0 && IsSpace(s[|s| - 1]) then TrimRight(s[..|s| - 1]) else s
  }

  /** `r` is the slice of `s` starting at `i`, and everything of `s` around it is whitespace. */
  predicate TrimmedAt(s: string, r: string, i: int) {
    && 0 <= i <= |s| - |r| && r == s[i..i + |r|]
    && (forall k :: 0 <= k < i ==> IsSpace(s[k]))
    && (forall k :: i + |r| <= k < |s| ==> IsSpace(s[k]))
  }

  /** `s.strip()`: remove the whitespace at both ends. */
  function Strip(s: string): (r: string)
    ensures |r| > 0 ==> !IsSpace(r[0]) && !IsSpace(r[|r| - 1])
  {
    var t := TrimRight(s);
    var r := TrimLeft(t);
    assert |r| > 0 ==> r[|r| - 1] == t[|t| - 1];
    r
  }

  /** What `strip` keeps is the slice of `s` that neither starts nor ends with
      whitespace, obtained by removing only whitespace from both ends. */
  lemma StripSlice(s: string)
    ensures TrimmedAt(s, Strip(s), |TrimRight(s)| - |Strip(s)|)
  {
    StripWitness(s, TrimRight(s), Strip(s));
  }

  /** Trimming the right, then the left, leaves a slice of `s` between
      whitespace that neither starts nor ends with whitespace. */
  lemma StripWitness(s: string, t: string, r: string)
    requires t == TrimRight(s) && r == TrimLeft(t)
    ensures TrimmedAt(s, r, |t| - |r|)
    ensures |r| > 0 ==> !IsSpace(r[0]) && !IsSpace(r[|r| - 1])
  {
    assert t == s[..|t|];
    assert r == s[|t| - |r|..|t|];
    SpacePrefix(s, t, |t| - |r|);
    if |r| > 0 {
      assert r[|r| - 1] == t[|t| - 1];
    }
  }

  /** Whitespace at the front of a prefix of `s` is whitespace at the front of `s`. */
  lemma SpacePrefix(s: string, t: string, n: nat)
    requires n <= |t| <= |s| && t == s[..|t|]
    requires forall k :: 0 <= k < n ==> IsSpace(t[k])
    ensures forall k :: 0 <= k < n ==> IsSpace(s[k])
  {
    forall k | 0 <= k < n ensures IsSpace(s[k]) {
      assert s[k] == t[k];
    }
  }


  /** Stripping twice strips nothing more. */
  lemma StripIdempotent(s: string)
    ensures Strip(Strip(s)) == Strip(s)
  {
    var r := Strip(s);
    if |r| > 0 {
      assert TrimRight(r) == r;
      assert TrimLeft(r) == r;
    }
  }

  /** Neither the first nor the last character of `s` is whitespace. */
  predicate Trimmed(s: string) {
    |s| == 0 || (!IsSpace(s[0]) && !IsSpace(s[|s| - 1]))
  }

  /** Stripping keeps exactly the slice between a whitespace prefix and a
      whitespace suffix when that slice starts and ends with non-whitespace. */
  lemma StripUnique(s: string, i: nat, j: nat)
    requires i <= j <= |s|
    requires forall k :: 0 <= k < i ==> IsSpace(s[k])
    requires forall k :: j <= k < |s| ==> IsSpace(s[k])
    requires i < j ==> !IsSpace(s[i]) && !IsSpace(s[j - 1])
    ensures Strip(s) == s[i..j]
  {
    if i < j {
      TrimRightAt(s, j);
      TrimLeftAt(s[..j], i);
      assert s[..j][i..] == s[i..j];
    } else {
      TrimRightAt(s, 0);
    }
  }

  /** `rstrip` stops at the last non-whitespace character, or empties a blank string. */
  lemma TrimRightAt(s: string, j: nat)
    requires j <= |s| && forall k :: j <= k < |s| ==> IsSpace(s[k])
    requires j == 0 || !IsSpace(s[j - 1])
    ensures TrimRight(s) == s[..j]
  {
  }

  /** `lstrip` stops at the first non-whitespace character. */
  lemma TrimLeftAt(t: string, i: nat)
    requires i < |t| && forall k :: 0 <= k < i ==> IsSpace(t[k])
    requires !IsSpace(t[i])
    ensures TrimLeft(t) == t[i..]
  {
  }

  /** A trimmed string is left alone by `strip`. */
  lemma StripTrimmed(s: string)
    requires Trimmed(s)
    ensures Strip(s) == s
  {
    StripUnique(s, 0, |s|);
    assert s[0..|s|] == s;
  }

  /** Stripping a trimmed string behind one space gives the string back. */
  lemma {:induction false} StripAfterSpace(t: string)
    requires Trimmed(t)
    ensures Strip([' '] + t) == t
  {
    var s := [' '] + t;
    assert s[1..|s|] == t;
    assert IsSpace(s[0]);
    if |t| > 0 {
      assert s[1] == t[0] && s[|s| - 1] == t[|t| - 1];
    }
    StripUnique(s, 1, |s|);
  }

  /** `s.rstrip(c)` for a single character `c`: `s` is the result followed by
      nothing but copies of `c`, and the result does not end with `c`. */
  function RStripChar(s: string, c: char): (r: string)
    ensures |r| <= |s| && s[..|r|] == r
    ensures forall i :: |r| <= i < |s| ==> s[i] == c
    ensures |r| == 0 || r[|r| - 1] != c
  {
    if |s| > 0 && s[|s| - 1] == c then RStripChar(s[..|s| - 1], c) else s
  }

  // ------------------------------------------------------------------- case

  function LowerChar(c: char): char {
    if 'A' <= c <= 'Z' then (c as int + 32) as char else c
  }

  /** `s.lower()` on the ASCII letters. */
  function Lower(s: string): (r: string)
    ensures |r| == |s|
    ensures forall i :: 0 <= i < |s| ==> r[i] == LowerChar(s[i])
  {
    seq(|s|, i requires 0 <= i < |s| => LowerChar(s[i]))
  }

  /** Lower-casing works character by character, so it distributes over concatenation. */
  lemma LowerConcat(a: string, b: string)
    ensures Lower(a + b) == Lower(a) + Lower(b)
  {
  }

  /** Lower-casing is idempotent. */
  lemma LowerIdempotent(s: string)
    ensures Lower(Lower(s)) == Lower(s)
  {
  }

  // -------------------------------------------------------------- substrings

  predicate StartsWith(s: string, p: string) {
    |p| <= |s| && s[..|p|] == p
  }

  /** A string whose first character differs from that of `p` does not start with `p`. */
  lemma FirstCharMismatch(s: string, p: string)
    requires |s| > 0 && |p| > 0 && s[0] != p[0]
    ensures !StartsWith(s, p)
  {
    if |p| <= |s| {
      assert s[..|p|][0] == s[0];
    }
  }

  /** `p` occurs in `s` starting at index `i`. */
  predicate OccursAt(s: string, p: string, i: int) {
    0 <= i && i + |p| <= |s| && s[i..i + |p|] == p
  }

  /** The first index at or after `k` where `p` occurs in `s`. */
  function FindFrom(s: string, p: string, k: nat): (r: Option<nat>)
    requires k <= |s|
    ensures r.Some? ==> k <= r.value && OccursAt(s, p, r.value)
    ensures r.Some? ==> forall j :: k <= j < r.value ==> !OccursAt(s, p, j)
    ensures r.None? ==> forall j :: k <= j ==> !OccursAt(s, p, j)
    decreases |s| - k
  {
    if OccursAt(s, p, k) then Some(k)
    else if k + |p| >= |s| then None
    else FindFrom(s, p, k + 1)
  }

  /** `s.find(p)`: the first occurrence of `p` in `s`, if any. */
  function Find(s: string, p: string): (r: Option<nat>)
    ensures r.Some? ==> OccursAt(s, p, r.value) && forall j :: 0 <= j < r.value ==> !OccursAt(s, p, j)
    ensures r.None? ==> forall j :: !OccursAt(s, p, j)
  {
    FindFrom(s, p, 0)
  }

  /** Python's `p in s` for strings: some slice of `s` equals `p`. */
  function Contains(s: string, p: string): (b: bool)
    ensures b <==> exists i :: OccursAt(s, p, i)
  {
    Find(s, p).Some?
  }

  /** Python's `any(p in s for p in ps)`. */
  function ContainsAny(s: string, ps: seq<string>): (b: bool)
    ensures b <==> exists k :: 0 <= k < |ps| && Contains(s, ps[k])
  {
    if |ps| == 0 then false
    else Contains(s, ps[0]) || ContainsAny(s, ps[1..])
  }

  /** A slice of a string is found inside any string that has the first as a part. */
  lemma ContainsInConcat(a: string, p: string, b: string, q: string)
    requires Contains(p, q)
    ensures Contains(a + p + b, q)
  {
    var i :| OccursAt(p, q, i);
    assert (a + p + b)[|a| + i..|a| + i + |q|] == p[i..i + |q|];
    assert OccursAt(a + p + b, q, |a| + i);
  }

  /** Putting a character that does not start `p` in front of a string free of
      `p` keeps it free of `p`. */
  lemma NotContainsCons(c: char, t: string, p: string)
    requires |p| > 0 && p[0] != c && !Contains(t, p)
    ensures !Contains([c] + t, p)
  {
    var s := [c] + t;
    forall j | OccursAt(s, p, j) ensures OccursAt(t, p, j - 1) {
      assert s[j..j + |p|][0] == s[j];
      assert j != 0;
      assert s[1..] == t;
      assert s[j..j + |p|] == s[1..][j - 1..j - 1 + |p|];
    }
  }

  /** An occurrence with none before it is the one `find` reports. */
  lemma FindFirst(s: string, p: string, i: nat)
    requires OccursAt(s, p, i) && forall j :: 0 <= j < i ==> !OccursAt(s, p, j)
    ensures Find(s, p) == Some(i)
  {
  }

  /** Every string contains itself. */
  lemma ContainsSelf(s: string)
    ensures Contains(s, s)
  {
    assert OccursAt(s, s, 0);
  }

  // ------------------------------------------------------------ join / split

  /** `sep.join(parts)`. */
  function Join(parts: seq<string>, sep: string): string
  {
    if |parts| == 0 then ""
    else if |parts| == 1 then parts[0]
    else parts[0] + sep + Join(parts[1..], sep)
  }

  /** `s.split(sep)` for a non-empty separator: the pieces between successive
      non-overlapping occurrences of `sep`, scanning left to right. */
  function Split(s: string, sep: string): (parts: seq<string>)
    requires |sep| > 0
    ensures |parts| >= 1
    decreases |s|
  {
    match Find(s, sep)
    case None => [s]
    case Some(i) => [s[..i]] + Split(s[i + |sep|..], sep)
  }

  /** One step of `split`: the piece before the first occurrence, then the split of the rest. */
  lemma SplitStep(s: string, sep: string, i: nat)
    requires |sep| > 0 && Find(s, sep) == Some(i)
    ensures Split(s, sep) == [s[..i]] + Split(s[i + |sep|..], sep)
  {
  }

  /** The piece before the first occurrence of `sep` does not contain it. */
  lemma HeadFree(s: string, sep: string, i: nat)
    requires |sep| > 0 && Find(s, sep) == Some(i)
    ensures !Contains(s[..i], sep)
  {
    var head := s[..i];
    assert i <= |s| by { assert OccursAt(s, sep, i); }
    forall j | 0 <= j && j + |sep| <= |head| ensures !OccursAt(head, sep, j) {
      assert head[j..j + |sep|] == s[j..j + |sep|];
      assert !OccursAt(s, sep, j);
    }
  }

  /** No piece produced by `split` contains the separator. */
  lemma {:induction false} SplitPiecesFree(s: string, sep: string)
    requires |sep| > 0
    ensures forall k :: 0 <= k < |Split(s, sep)| ==> !Contains(Split(s, sep)[k], sep)
    decreases |s|
  {
    match Find(s, sep)
    case None =>
      assert Split(s, sep) == [s];
    case Some(i) =>
      var rest := s[i + |sep|..];
      HeadFree(s, sep, i);
      SplitPiecesFree(rest, sep);
      SplitStep(s, sep, i);
  }

  /** Splitting and joining back with the same separator gives the original string. */
  lemma {:induction false} JoinSplit(s: string, sep: string)
    requires |sep| > 0
    ensures Join(Split(s, sep), sep) == s
    decreases |s|
  {
    match Find(s, sep)
    case None =>
    case Some(i) =>
      var rest := s[i + |sep|..];
      var tail := Split(rest, sep);
      var parts := [s[..i]] + tail;
      assert Split(s, sep) == parts;
      assert parts[1..] == tail;
      assert Join(parts, sep) == s[..i] + sep + Join(tail, sep);
      JoinSplit(rest, sep);
      assert s[i..i + |sep|] == sep;
      assert s == s[..i] + s[i..i + |sep|] + rest;
  }

  /** `s.split(sep)` yields more than one piece only when `sep` occurs in `s`. */
  lemma SplitFound(s: string, sep: string)
    requires |sep| > 0 && |Split(s, sep)| > 1
    ensures Contains(s, sep)
  {
    assert Find(s, sep).Some?;
  }

  /** A string free of `sep` splits into itself alone. */
  lemma SplitAbsent(s: string, sep: string)
    requires |sep| > 0 && !Contains(s, sep)
    ensures Split(s, sep) == [s]
  {
  }

  /** `s.split(sep)` is the single piece `s` exactly when `sep` does not occur in `s`. */
  lemma SplitSingle(s: string, sep: string)
    requires |sep| > 0
    ensures |Split(s, sep)| == 1 <==> !Contains(s, sep)
  {
    match Find(s, sep)
    case None =>
    case Some(i) =>
      SplitStep(s, sep, i);
  }

  /** `s.split(sep)` has exactly two pieces when `sep` occurs in `s` exactly once. */
  lemma SplitTwoParts(s: string, sep: string)
    requires |sep| > 0
    ensures |Split(s, sep)| == 2 <==>
      (Find(s, sep).Some? && !Contains(s[Find(s, sep).value + |sep|..], sep))
  {
    match Find(s, sep)
    case None =>
      SplitSingle(s, sep);
    case Some(i) =>
      SplitStep(s, sep, i);
      SplitSingle(s[i + |sep|..], sep);
  }

  /** `s.replace(pat, rep)`: every non-overlapping occurrence of `pat`, scanning
      left to right, replaced by `rep`. */
  function Replace(s: string, pat: string, rep: string): string
    requires |pat| > 0
    decreases |s|
  {
    if |s| < |pat| then s
    else if StartsWith(s, pat) then rep + Replace(s[|pat|..], pat, rep)
    else [s[0]] + Replace(s[1..], pat, rep)
  }

  /** Replacement scans past a prefix in which `pat` does not start. */
  lemma {:induction false} ReplaceSkips(s: string, pat: string, rep: string, i: nat)
    requires |pat| > 0 && i <= |s|
    requires forall j :: 0 <= j < i ==> !OccursAt(s, pat, j)
    ensures Replace(s, pat, rep) == s[..i] + Replace(s[i..], pat, rep)
    decreases i
  {
    if i == 0 {
      assert s[i..] == s;
    } else if |s| < |pat| {
      ReplaceShort(s, pat, rep);
      ReplaceShort(s[i..], pat, rep);
      assert s[..i] + s[i..] == s;
    } else {
      var t := s[1..];
      forall j | 0 <= j < i - 1 ensures !OccursAt(t, pat, j) {
        ShiftedOccurrence(s, pat, j);
      }
      ReplaceSkips(t, pat, rep, i - 1);
      ReplaceSkipsStep(s, pat, rep, i);
    }
  }

  /** One step of `ReplaceSkips`: the first character is kept, and the rest
      is scanned one position shorter. */
  lemma ReplaceSkipsStep(s: string, pat: string, rep: string, i: nat)
    requires 0 < |pat| <= |s| && 0 < i <= |s| && !OccursAt(s, pat, 0)
    requires Replace(s[1..], pat, rep) == s[1..][..i - 1] + Replace(s[1..][i - 1..], pat, rep)
    ensures Replace(s, pat, rep) == s[..i] + Replace(s[i..], pat, rep)
  {
    var t := s[1..];
    ReplaceKeepsFirst(s, pat, rep);
    assert t[i - 1..] == s[i..];
    assert t[..i - 1] == s[1..i];
    assert s[..i] == [s[0]] + s[1..i];
    ConcatAssoc([s[0]], t[..i - 1], Replace(s[i..], pat, rep));
  }

  /** When `pat` does not start `s`, replacement keeps the first character and moves on. */
  lemma ReplaceKeepsFirst(s: string, pat: string, rep: string)
    requires |pat| > 0 && |pat| <= |s| && !OccursAt(s, pat, 0)
    ensures Replace(s, pat, rep) == [s[0]] + Replace(s[1..], pat, rep)
  {
    assert s[..|pat|] == s[0..|pat|];
  }

  /** An occurrence in the tail of `s` is an occurrence in `s`, one place later. */
  lemma ShiftedOccurrence(s: string, pat: string, j: nat)
    requires |s| > 0 && !OccursAt(s, pat, j + 1)
    ensures !OccursAt(s[1..], pat, j)
  {
    if j + |pat| <= |s| - 1 {
      assert s[1..][j..j + |pat|] == s[j + 1..j + 1 + |pat|];
    }
  }

  /** An occurrence of `pat` at the very start is replaced and the scan resumes after it. */
  lemma ReplaceAtStart(s: string, pat: string, rep: string)
    requires |pat| > 0
    ensures Replace(pat + s, pat, rep) == rep + Replace(s, pat, rep)
  {
    assert (pat + s)[..|pat|] == pat;
    assert (pat + s)[|pat|..] == s;
  }

  /** A string shorter than `pat` is left alone. */
  lemma ReplaceShort(s: string, pat: string, rep: string)
    requires |pat| > 0 && |s| < |pat|
    ensures Replace(s, pat, rep) == s
  {
  }

  /** A string in which `pat` never occurs is left alone. */
  lemma ReplaceAbsent(s: string, pat: string, rep: string)
    requires |pat| > 0 && !Contains(s, pat)
    ensures Replace(s, pat, rep) == s
  {
    ReplaceSkips(s, pat, rep, |s|);
    assert s[|s|..] == "";
  }

  /** `sep.join` of a piece followed by at least one more. */
  lemma JoinCons(h: string, tail: seq<string>, sep: string)
    requires |tail| >= 1
    ensures Join([h] + tail, sep) == h + sep + Join(tail, sep)
  {
    assert ([h] + tail)[1..] == tail;
  }

  /** Replacement from the first occurrence of `pat` on: `pat` becomes `rep`
      and the scan resumes after it. */
  lemma ReplaceFrom(s: string, pat: string, rep: string, i: nat)
    requires |pat| > 0 && Find(s, pat) == Some(i)
    ensures Replace(s, pat, rep) == s[..i] + rep + Replace(s[i + |pat|..], pat, rep)
  {
    ReplaceSkips(s, pat, rep, i);
    ReplaceAtOccurrence(s, pat, rep, i);
    ConcatAssoc(s[..i], rep, Replace(s[i + |pat|..], pat, rep));
  }

  /** At an occurrence of `pat`, replacement emits `rep` and resumes after it. */
  lemma ReplaceAtOccurrence(s: string, pat: string, rep: string, i: nat)
    requires |pat| > 0 && OccursAt(s, pat, i)
    ensures Replace(s[i..], pat, rep) == rep + Replace(s[i + |pat|..], pat, rep)
  {
    SliceAt(s, pat, i);
    ReplaceAtStart(s[i + |pat|..], pat, rep);
  }

  lemma ConcatAssoc(a: string, b: string, c: string)
    ensures a + (b + c) == a + b + c
  {
  }

  /** From an occurrence of `pat` on, `s` is `pat` followed by the rest. */
  lemma SliceAt(s: string, pat: string, i: nat)
    requires OccursAt(s, pat, i)
    ensures s[i..] == pat + s[i + |pat|..]
  {
    assert s[i..] == s[i..i + |pat|] + s[i + |pat|..];
  }

  /** Replacement agrees with the reference definition `rep.join(s.split(pat))`. */
  lemma {:induction false} ReplaceIsSplitJoin(s: string, pat: string, rep: string)
    requires |pat| > 0
    ensures Replace(s, pat, rep) == Join(Split(s, pat), rep)
    decreases |s|
  {
    match Find(s, pat)
    case None =>
      ReplaceAbsent(s, pat, rep);
      assert Split(s, pat) == [s];
    case Some(i) =>
      var rest := s[i + |pat|..];
      ReplaceFrom(s, pat, rep, i);
      ReplaceIsSplitJoin(rest, pat, rep);
      SplitStep(s, pat, i);
      JoinCons(s[..i], Split(rest, pat), rep);
  }

  // ---------------------------------------------------------------- repr

  /** The quote `repr(s)` encloses `s` in: a double quote when `s` holds a
      single quote and no double quote, otherwise a single quote. */
  function ReprQuote(s: string): (q: char)
    ensures q == '"' <==> '\'' in s && '"' !in s
    ensures q == '\'' <==> !('\'' in s && '"' !in s)
  {
    if '\'' in s && '"' !in s then '"' else '\''
  }

  /** The Latin-1 characters `str.isprintable` rejects: the C0 and C1
      controls, DEL, the no-break space and the soft hyphen. */
  predicate NonPrintable(c: char) {
    c < ' ' || ('\U{007F}' <= c <= '\U{00A0}') || c == '\U{00AD}'
  }

  /** A lower-case hexadecimal digit. */
  function HexDigit(d: nat): (c: char)
    requires d < 16
  {
    if d < 10 then ('0' as int + d) as char else ('a' as int + d - 10) as char
  }

  predicate IsHexDigit(c: char) {
    ('0' <= c <= '9') || ('a' <= c <= 'f')
  }

  function HexValue(c: char): (d: nat)
    requires IsHexDigit(c)
    ensures d < 16
  {
    if c <= '9' then c as int - '0' as int else c as int - 'a' as int + 10
  }

  lemma HexDigitRoundTrip(d: nat)
    requires d < 16
    ensures IsHexDigit(HexDigit(d)) && HexValue(HexDigit(d)) == d
  {
  }

  /** How `repr` writes one character inside quotes `q`: a backslash before a
      backslash or the quote, `\t`, `\n` and `\r` by name, the other
      non-printable characters as `\xhh`, everything else as itself. */
  function EscapeChar(c: char, q: char): (r: string)
    ensures |r| >= 1
    ensures r == [c] <==> c != '\\' && c != q && !NonPrintable(c)
  {
    if c == '\\' || c == q then ['\\', c]
    else if c == '\t' then ['\\', 't']
    else if c == '\n' then ['\\', 'n']
    else if c == '\r' then ['\\', 'r']
    else if NonPrintable(c) then ['\\', 'x', HexDigit(c as int / 16), HexDigit(c as int % 16)]
    else [c]
  }

  /** Every character of `s` written as `repr` writes it. */
  function EscapeAll(s: string, q: char): (r: string)
    ensures |r| >= |s|
  {
    if |s| == 0 then [] else EscapeChar(s[0], q) + EscapeAll(s[1..], q)
  }

  /** `repr(s)` for a string: the escaped characters between the chosen quotes. */
  function Repr(s: string): (r: string)
    ensures |r| >= |s| + 2
    ensures r[0] == ReprQuote(s) && r[|r| - 1] == ReprQuote(s)
  {
    [ReprQuote(s)] + EscapeAll(s, ReprQuote(s)) + [ReprQuote(s)]
  }

  /** A string none of whose characters needs escaping is written as it is. */
  lemma {:induction false} EscapeAllPlain(s: string, q: char)
    requires forall i :: 0 <= i < |s| ==> EscapeChar(s[i], q) == [s[i]]
    ensures EscapeAll(s, q) == s
  {
    if |s| > 0 {
      EscapeAllPlain(s[1..], q);
      assert s == [s[0]] + s[1..];
    }
  }

  /** A string with no single quote and nothing to escape is written between single quotes. */
  lemma ReprPlain(s: string)
    requires forall i :: 0 <= i < |s| ==> EscapeChar(s[i], '\'') == [s[i]]
    ensures Repr(s) == "'" + s + "'"
  {
    assert '\'' !in s by {
      forall i | 0 <= i < |s| ensures s[i] != '\'' {
        assert EscapeChar(s[i], '\'') == [s[i]];
      }
    }
    EscapeAllPlain(s, '\'');
  }

  /** A string holding a single quote but no double quote, and nothing else
      to escape, is written between double quotes unchanged: `repr("it's")`
      is `"it's"`. */
  lemma ReprDoubleQuoted(s: string)
    requires '\'' in s
    requires forall i :: 0 <= i < |s| ==> EscapeChar(s[i], '"') == [s[i]]
    ensures Repr(s) == "\"" + s + "\""
  {
    assert '"' !in s by {
      forall i | 0 <= i < |s| ensures s[i] != '"' {
        assert EscapeChar(s[i], '"') == [s[i]];
      }
    }
    EscapeAllPlain(s, '"');
  }

  /** With both quotes present, single quotes are used and the inner one is escaped. */
  lemma ReprBothQuotes()
    ensures Repr("'\"") == "'\\'\"'"
  {
    assert EscapeAll("'\"", '\'') == "\\'\"";
  }

  lemma ReprNewline()
    ensures Repr("a\nb") == "'a\\nb'"
  {
    assert EscapeAll("a\nb", '\'') == "a\\nb";
  }

  /** Python reading back the inside of a string literal: `\` followed by `t`,
      `n`, `r` or `x` and two hexadecimal digits is that character, `\`
      followed by any other character is that character. `None` for a
      dangling escape. */
  function Unescape(t: string): (r: Option<string>)
    decreases |t|
  {
    if |t| == 0 then Some([])
    else if t[0] != '\\' then Prepend(t[0], Unescape(t[1..]))
    else if |t| < 2 then None
    else if t[1] == 't' then Prepend('\t', Unescape(t[2..]))
    else if t[1] == 'n' then Prepend('\n', Unescape(t[2..]))
    else if t[1] == 'r' then Prepend('\r', Unescape(t[2..]))
    else if t[1] == 'x' then
      if |t| < 4 || !IsHexDigit(t[2]) || !IsHexDigit(t[3]) then None
      else Prepend((16 * HexValue(t[2]) + HexValue(t[3])) as char, Unescape(t[4..]))
    else Prepend(t[1], Unescape(t[2..]))
  }

  function Prepend(c: char, r: Option<string>): Option<string> {
    match r
    case Some(s) => Some([c] + s)
    case None => None
  }

  /** Reading back one escaped character. */
  lemma UnescapeChar(c: char, q: char, rest: string)
    requires q == '\'' || q == '"'
    ensures Unescape(EscapeChar(c, q) + rest) == Prepend(c, Unescape(rest))
  {
    var e := EscapeChar(c, q);
    var t := e + rest;
    if c == '\\' || c == q || c == '\t' || c == '\n' || c == '\r' {
      assert t[0] == '\\' && t[2..] == rest;
    } else if NonPrintable(c) {
      var hi, lo := c as int / 16, c as int % 16;
      HexDigitRoundTrip(hi);
      HexDigitRoundTrip(lo);
      assert t[0] == '\\' && t[1] == 'x' && t[2] == HexDigit(hi) && t[3] == HexDigit(lo) && t[4..] == rest;
      assert (16 * hi + lo) as char == c;
    } else {
      assert t[0] == c && t[1..] == rest;
    }
  }

  /** Reading back the escaped characters gives the string. */
  lemma {:induction false} UnescapeAll(s: string, q: char)
    requires q == '\'' || q == '"'
    ensures Unescape(EscapeAll(s, q)) == Some(s)
  {
    if |s| > 0 {
      UnescapeAll(s[1..], q);
      UnescapeChar(s[0], q, EscapeAll(s[1..], q));
      assert s == [s[0]] + s[1..];
    }
  }

  /** Python reading back a string literal: the text between a matching pair
      of quotes, unescaped. */
  function Unrepr(r: string): (s: Option<string>) {
    if |r| >= 2 && (r[0] == '\'' || r[0] == '"') && r[|r| - 1] == r[0] then Unescape(r[1..|r| - 1])
    else None
  }

  /** `repr` is injective on strings: its literal reads back as the string. */
  lemma ReprRoundTrip(s: string)
    ensures Unrepr(Repr(s)) == Some(s)
  {
    var r := Repr(s);
    assert r[1..|r| - 1] == EscapeAll(s, ReprQuote(s));
    UnescapeAll(s, ReprQuote(s));
  }

  // ---------------------------------------------------------------- numerals

  predicate IsDigit(c: char) {
    '0' <= c <= '9'
  }

  function DigitChar(d: nat): (c: char)
    requires d < 10
    ensures IsDigit(c) && c as int - '0' as int == d
  {
    ('0' as int + d) as char
  }

  /** `str(n)` for a natural number: its decimal digits, most significant first. */
  function NatToString(n: nat): (r: string)
    ensures |r| >= 1
    ensures forall i :: 0 <= i < |r| ==> IsDigit(r[i])
    ensures r[0] == '0' ==> n == 0
    decreases n
  {
    if n < 10 then [DigitChar(n)] else NatToString(n / 10) + [DigitChar(n % 10)]
  }

  /** The value of a string of decimal digits. */
  function DigitsValue(s: string): nat
    requires forall i :: 0 <= i < |s| ==> IsDigit(s[i])
  {
    if |s| == 0 then 0
    else
      assert IsDigit(s[|s| - 1]);
      10 * DigitsValue(s[..|s| - 1]) + (s[|s| - 1] as int - '0' as int)
  }

  /** Reading back the decimal digits of `n` gives `n`, so `str` is injective on naturals. */
  lemma {:induction false} NatToStringRoundTrip(n: nat)
    ensures DigitsValue(NatToString(n)) == n
    decreases n
  {
    if n >= 10 {
      NatToStringRoundTrip(n / 10);
      var r := NatToString(n);
      assert r[..|r| - 1] == NatToString(n / 10);
    }
  }

  /** `str(i)` for an integer: a minus sign for negatives, then the digits of `|i|`. */
  function IntToString(i: int): (r: string)
    ensures |r| >= 1
    ensures i < 0 <==> r[0] == '-'
    ensures i >= 0 ==> r == NatToString(i)
    ensures i < 0 ==> r[1..] == NatToString(-i)
  {
    if i < 0 then "-" + NatToString(-i) else NatToString(i)
  }
}
