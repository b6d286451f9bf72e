/** The JavaScript string operations the modelled code relies on, stated over `string`, a
    sequence of Unicode scalar values. JavaScript stores a string as UTF-16 code units, where a
    character above U+FFFF takes two. The searches, cuts and trims below use positions that come
    from searching the same string for patterns of single-unit characters, so they give the same
    strings under either view; the operations that count code units (`length`, `charCodeAt`, a
    cut at a fixed position) go through `Utf16`. */
module Strings {
  import opened Wrappers

  /** WhiteSpace and LineTerminator in ECMAScript: what `trim` strips and what `\s` matches. */
  predicate IsSpace(c: char) {
    || c == '\t' || c == '\n' || c == '\U{B}' || c == '\U{C}' || c == '\r' || c == ' '
    || c == '\U{A0}' || c == '\U{1680}' || ('\U{2000}' <= c <= '\U{200A}')
    || c == '\U{2028}' || c == '\U{2029}' || c == '\U{202F}' || c == '\U{205F}'
    || c == '\U{3000}' || c == '\U{FEFF}'
  }

  /** The characters after which `^` matches in a multi-line regular expression. */
  predicate IsLineTerminator(c: char) {
    c == '\n' || c == '\r' || c == '\U{2028}' || c == '\U{2029}'
  }

  /** `pat` occurs in `s` starting at position `k`. */
  predicate OccursAt(s: string, pat: string, k: int) {
    0 <= k && k + |pat| <= |s| && s[k..k + |pat|] == pat
  }

  predicate StartsWith(s: string, prefix: string) {
    prefix <= s
  }

  predicate EndsWith(s: string, suffix: string) {
    |suffix| <= |s| && s[|s| - |suffix|..] == suffix
  }

  /** `s.indexOf(pat, from)`: the first position at or after `from` where `pat` occurs, or -1. */
  function IndexFrom(s: string, pat: string, from: nat): (r: int)
    requires from <= |s|
    ensures r == -1 || (from <= r && OccursAt(s, pat, r))
    ensures forall k :: from <= k && (r == -1 || k < r) ==> !OccursAt(s, pat, k)
    decreases |s| - from
  {
    if from + |pat| > |s| then -1
    else if s[from..from + |pat|] == pat then from
    else IndexFrom(s, pat, from + 1)
  }

  /** `s.indexOf(pat)`. */
  function IndexOf(s: string, pat: string): (r: int)
    ensures r == -1 || OccursAt(s, pat, r)
    ensures forall k :: 0 <= k && (r == -1 || k < r) ==> !OccursAt(s, pat, k)
  {
    IndexFrom(s, pat, 0)
  }

  /** `s.includes(pat)`. */
  predicate Contains(s: string, pat: string) {
    IndexOf(s, pat) >= 0
  }

  lemma {:induction false} ContainsIff(s: string, pat: string)
    ensures Contains(s, pat) <==> exists k :: OccursAt(s, pat, k)
  {
    if !Contains(s, pat) {
      forall k ensures !OccursAt(s, pat, k) {
      }
    }
  }

  /** `s.split(sep)` for a non-empty separator. */
  function Split(s: string, sep: string): (parts: seq<string>)
    requires sep != []
    ensures |parts| >= 1
    decreases |s|
  {
    var i := IndexOf(s, sep);
    if i < 0 then [s] else [s[..i]] + Split(s[i + |sep|..], sep)
  }

  /** `s.replace(pat, rep)` with a string pattern: only the first occurrence is replaced. */
  function ReplaceFirst(s: string, pat: string, rep: string): (r: string)
    ensures !Contains(s, pat) ==> r == s
    ensures Contains(s, pat) ==>
              exists i :: OccursAt(s, pat, i) && (forall k :: 0 <= k < i ==> !OccursAt(s, pat, k)) &&
                          r == s[..i] + rep + s[i + |pat|..]
  {
    var i := IndexOf(s, pat);
    if i < 0 then s else s[..i] + rep + s[i + |pat|..]
  }

  function Clamp(x: int, n: nat): (r: nat)
    ensures r <= n
  {
    if x < 0 then 0 else if x > n then n else x
  }

  /** `s.substring(a, b)`: both bounds are clamped to the string, and swapped when `b < a`. */
  function Substring(s: string, a: int, b: int): (r: string)
    ensures |r| <= |s|
  {
    var x, y := Clamp(a, |s|), Clamp(b, |s|);
    if x <= y then s[x..y] else s[y..x]
  }

  /** Where `s.trimStart()` would start: the first position at or after `from` that is not
      white space, or `|s|`. */
  function SkipSpaces(s: string, from: nat): (r: nat)
    requires from <= |s|
    ensures from <= r <= |s|
    ensures forall k :: from <= k < r ==> IsSpace(s[k])
    ensures r == |s| || !IsSpace(s[r])
    decreases |s| - from
  {
    if from < |s| && IsSpace(s[from]) then SkipSpaces(s, from + 1) else from
  }

  /** Where `s.trimEnd()` would end: the position just after the last character before `end`
      that is not white space, or 0. */
  function BackSpaces(s: string, end: nat): (r: nat)
    requires end <= |s|
    ensures r <= end
    ensures forall k :: r <= k < end ==> IsSpace(s[k])
    ensures r == 0 || !IsSpace(s[r - 1])
    decreases end
  {
    if end > 0 && IsSpace(s[end - 1]) then BackSpaces(s, end - 1) else end
  }

  /** Neither end of `s` is white space. */
  predicate IsTrimmed(s: string) {
    s == [] || (!IsSpace(s[0]) && !IsSpace(s[|s| - 1]))
  }

  /** `s.trim()`: the slice of `s` left after dropping white space at both ends. */
  function Trim(s: string): (r: string)
    ensures IsTrimmed(r)
    ensures SkipSpaces(s, 0) + |r| <= |s|
    ensures r == s[SkipSpaces(s, 0)..SkipSpaces(s, 0) + |r|]
    ensures forall k :: SkipSpaces(s, 0) + |r| <= k < |s| ==> IsSpace(s[k])
  {
    var a := SkipSpaces(s, 0);
    var b := BackSpaces(s, |s|);
    if b <= a then [] else s[a..b]
  }

  /** Every character of the trimmed string comes from the original. */
  lemma {:induction false} TrimChars(s: string)
    ensures forall c :: c in Trim(s) ==> c in s
  {
    var r := Trim(s);
    var o := SkipSpaces(s, 0);
    forall c | c in r ensures c in s {
      var k :| 0 <= k < |r| && r[k] == c;
      assert s[o + k] == c;
    }
  }

  /** A string is blank when nothing is left of it after `trim()`; `!s.trim()` in the source. */
  predicate IsBlank(s: string) {
    Trim(s) == []
  }

  lemma {:induction false} BlankIffAllSpace(s: string)
    ensures IsBlank(s) <==> forall k :: 0 <= k < |s| ==> IsSpace(s[k])
  {
    var a := SkipSpaces(s, 0);
    if a < |s| {
      assert BackSpaces(s, |s|) > a;
    }
  }

  /** ASCII-only case folding, which is what a `/i` regular expression without the `u` flag does
      for the patterns used here. */
  function AsciiLower(c: char): char {
    if 'A' <= c <= 'Z' then (c as int + 32) as char else c
  }

  predicate CharMatches(c: char, p: char, ignoreCase: bool) {
    c == p || (ignoreCase && AsciiLower(c) == AsciiLower(p))
  }

  /** The literal pattern `pat` matches at the start of `s`. */
  predicate MatchesPrefix(s: string, pat: string, ignoreCase: bool) {
    |pat| <= |s| && forall k :: 0 <= k < |pat| ==> CharMatches(s[k], pat[k], ignoreCase)
  }

  /** `s.replace(/pat/g, '')` (with the `i` flag when `ignoreCase`) for a literal pattern: matches
      are found left to right and do not overlap. */
  function RemoveAll(s: string, pat: string, ignoreCase: bool): (r: string)
    requires pat != []
    ensures |r| <= |s|
    ensures forall c :: c in r ==> c in s
    decreases |s|
  {
    if s == [] then []
    else if MatchesPrefix(s, pat, ignoreCase) then RemoveAll(s[|pat|..], pat, ignoreCase)
    else [s[0]] + RemoveAll(s[1..], pat, ignoreCase)
  }

  /** Removing every match of a one-character pattern leaves none of that character. */
  lemma {:induction false} RemoveAllChar(s: string, c: char)
    ensures c !in RemoveAll(s, [c], false)
    decreases |s|
  {
    if s != [] {
      RemoveAllChar(s[1..], c);
    }
  }

  lemma {:induction false} RemoveAllNoMatch(s: string, pat: string, ignoreCase: bool)
    requires pat != []
    requires forall k :: 0 <= k < |s| ==> !MatchesPrefix(s[k..], pat, ignoreCase)
    ensures RemoveAll(s, pat, ignoreCase) == s
    decreases |s|
  {
    if s != [] {
      assert s[0..] == s;
      forall k | 0 <= k < |s| - 1 ensures !MatchesPrefix(s[1..][k..], pat, ignoreCase) {
        assert s[1..][k..] == s[k + 1..];
      }
      RemoveAllNoMatch(s[1..], pat, ignoreCase);
    }
  }

  function DigitChar(d: nat): char
    requires d < 10
  {
    "0123456789"[d]
  }

  /** The decimal numeral of `n`, as JavaScript prints an integer-valued number. */
  function NatToString(n: nat): (r: string)
    ensures |r| >= 1
    ensures forall c :: c in r ==> '0' <= c <= '9'
    decreases n
  {
    if n < 10 then [DigitChar(n)] else NatToString(n / 10) + [DigitChar(n % 10)]
  }

  function IntToString(i: int): (r: string)
    ensures r != []
  {
    if i < 0 then "-" + NatToString(-i) else NatToString(i)
  }

  /** An occurrence stays an occurrence when text is appended. */
  lemma {:induction false} ContainsAppend(s: string, t: string, pat: string)
    requires Contains(s, pat)
    ensures Contains(s + t, pat)
  {
    var k := IndexOf(s, pat);
    assert (s + t)[k..k + |pat|] == s[k..k + |pat|];
    assert OccursAt(s + t, pat, k);
    ContainsIff(s + t, pat);
  }

  /** The in-order concatenation of a list of strings. */
  function Concat(ss: seq<string>): string {
    if ss == [] then [] else Concat(ss[..|ss| - 1]) + ss[|ss| - 1]
  }

  /** `s.lastIndexOf(c)` for a single character. */
  function LastIndexOfChar(s: string, c: char): (r: int)
    ensures -1 <= r < |s|
    ensures r >= 0 ==> s[r] == c
  {
    if s == [] then -1
    else if s[|s| - 1] == c then |s| - 1
    else LastIndexOfChar(s[..|s| - 1], c)
  }

  /** No `c` follows the one `LastIndexOfChar` finds. */
  lemma {:induction false} NoCharAfterLast(s: string, c: char)
    ensures forall k :: LastIndexOfChar(s, c) < k < |s| ==> s[k] != c
    decreases |s|
  {
    if s != [] && s[|s| - 1] != c {
      var init := s[..|s| - 1];
      NoCharAfterLast(init, c);
      forall k | LastIndexOfChar(s, c) < k < |s| - 1 ensures s[k] != c {
        assert init[k] == s[k];
      }
    }
  }

  /** The first piece of `s.split(sep)` is the text before the first separator. */
  lemma {:induction false} SplitFirst(s: string, sep: string)
    requires sep != []
    ensures |Split(s, sep)| > 1 <==> Contains(s, sep)
    ensures Split(s, sep)[0] == if Contains(s, sep) then s[..IndexOf(s, sep)] else s
  {
  }

  /** The second piece of `s.split(sep)` is the text between the first and the second
      separator, or all the text after the first one when there is no second. */
  lemma {:induction false} SplitSecond(s: string, sep: string)
    requires sep != [] && Contains(s, sep)
    ensures var after := s[IndexOf(s, sep) + |sep|..];
            var j := IndexOf(after, sep);
            |Split(s, sep)| > 1 && Split(s, sep)[1] == if j < 0 then after else after[..j]
  {
    var i := IndexOf(s, sep);
    var after := s[i + |sep|..];
    assert Split(s, sep) == [s[..i]] + Split(after, sep);
    SplitFirst(after, sep);
  }

  /** When `c` sits at `i`, the last `c` of `s` is the last one after `i`, if any, else `i`. */
  lemma {:induction false} LastIndexAfter(s: string, c: char, i: nat)
    requires i < |s| && s[i] == c
    ensures var l := LastIndexOfChar(s[i + 1..], c);
            LastIndexOfChar(s, c) == if l >= 0 then i + 1 + l else i
  {
    var rest := s[i + 1..];
    var l := LastIndexOfChar(rest, c);
    var v := if l >= 0 then i + 1 + l else i;
    assert s[v] == c by { if l >= 0 { assert rest[l] == s[i + 1 + l]; } }
    NoCharAfterLast(rest, c);
    forall k | v < k < |s| ensures s[k] != c {
      assert rest[k - i - 1] == s[k];
    }
    LastIndexUnique(s, c, v);
  }

  /** A `c` with none after it is the one `LastIndexOfChar` finds. */
  lemma {:induction false} LastIndexUnique(s: string, c: char, v: nat)
    requires v < |s| && s[v] == c
    requires forall k :: v < k < |s| ==> s[k] != c
    ensures LastIndexOfChar(s, c) == v
    decreases |s|
  {
    if v < |s| - 1 {
      var init := s[..|s| - 1];
      forall k | v < k < |init| ensures init[k] != c {
        assert init[k] == s[k];
      }
      LastIndexUnique(init, c, v);
    }
  }

  /** `s.split(c).pop()`. */
  function LastPiece(s: string, c: char): string {
    var parts := Split(s, [c]);
    parts[|parts| - 1]
  }

  /** The text after the last `c` of `s`, or all of `s` when there is none. */
  function AfterLast(s: string, c: char): string {
    s[LastIndexOfChar(s, c) + 1..]
  }

  /** `s.split(c).pop()` is the text after the last `c`, or all of `s` when there is none. */
  lemma {:induction false} SplitLast(s: string, c: char)
    ensures LastPiece(s, c) == AfterLast(s, c)
    decreases |s|
  {
    var i := IndexOf(s, [c]);
    if i >= 0 {
      var rest := s[i + 1..];
      SplitLast(rest, c);
      assert LastPiece(s, c) == LastPiece(rest, c) by { SplitLastPiece(s, c); }
      assert AfterLast(rest, c) == AfterLast(s, c) by {
        assert i < |s| && s[i] == c by { SplitAtChar(s, c); }
        LastPieceStart(s, c, i);
      }
    } else {
      SplitLastNone(s, c);
    }
  }

  /** `SplitLast` when `s` has no `c`: the one piece is `s`. */
  lemma {:induction false} SplitLastNone(s: string, c: char)
    requires IndexOf(s, [c]) < 0
    ensures LastPiece(s, c) == AfterLast(s, c)
  {
    NoCharNoLast(s, c);
    assert Split(s, [c]) == [s];
    assert s[0..] == s;
  }

  /** The last piece of `s` is the last piece of what follows the first `c`. */
  lemma {:induction false} SplitLastPiece(s: string, c: char)
    requires IndexOf(s, [c]) >= 0
    ensures LastPiece(s, c) == LastPiece(s[IndexOf(s, [c]) + 1..], c)
  {
    SplitAtChar(s, c);
  }

  /** What follows the last `c` of `s` is what follows the last `c` after position `i`. */
  lemma {:induction false} LastPieceStart(s: string, c: char, i: nat)
    requires i < |s| && s[i] == c
    ensures AfterLast(s[i + 1..], c) == AfterLast(s, c)
  {
    var rest := s[i + 1..];
    var l := LastIndexOfChar(rest, c);
    var last := LastIndexOfChar(s, c);
    assert AfterLast(rest, c) == rest[l + 1..];
    if l >= 0 {
      assert last == i + 1 + l by { LastIndexAfter(s, c, i); }
      SliceOfSlice(s, i + 1, l + 1);
    } else {
      assert last == i by { LastIndexAfter(s, c, i); }
      assert rest[0..] == rest;
    }
  }

  lemma {:induction false} SliceOfSlice(s: string, a: nat, b: nat)
    requires a + b <= |s|
    ensures s[a..][b..] == s[a + b..]
  {
    assert |s[a..][b..]| == |s[a + b..]|;
    forall k | 0 <= k < |s| - a - b ensures s[a..][b..][k] == s[a + b..][k] {
    }
  }

  /** Splitting at the first `c` found. */
  lemma {:induction false} SplitAtChar(s: string, c: char)
    requires IndexOf(s, [c]) >= 0
    ensures var i := IndexOf(s, [c]);
            s[i] == c && Split(s, [c]) == [s[..i]] + Split(s[i + 1..], [c])
  {
    var i := IndexOf(s, [c]);
    assert s[i..i + 1] == [c];
  }

  /** Without an occurrence of `c`, there is no last one. */
  lemma {:induction false} NoCharNoLast(s: string, c: char)
    requires IndexOf(s, [c]) < 0
    ensures LastIndexOfChar(s, c) == -1
  {
    forall k | 0 <= k < |s| ensures s[k] != c {
      assert !OccursAt(s, [c], k);
      assert s[k..k + 1] == [s[k]];
    }
  }

  /** A string that starts and ends with non-space characters is left unchanged by `trim()`. */
  lemma {:induction false} TrimNoop(s: string)
    requires s != [] && !IsSpace(s[0]) && !IsSpace(s[|s| - 1])
    ensures Trim(s) == s
  {
    assert SkipSpaces(s, 0) == 0;
    assert BackSpaces(s, |s|) == |s|;
    assert s[0..|s|] == s;
  }

  /** An occurrence inside a slice is an occurrence in the whole string. */
  lemma {:induction false} SliceContains(s: string, i: nat, j: nat, pat: string)
    requires i <= j <= |s| && Contains(s[i..j], pat)
    ensures OccursAt(s, pat, i + IndexOf(s[i..j], pat))
    ensures i + IndexOf(s[i..j], pat) + |pat| <= j
  {
    var k := IndexOf(s[i..j], pat);
    assert OccursAt(s[i..j], pat, k);
    forall m | 0 <= m < |pat| ensures s[i + k + m] == pat[m] {
      assert s[i..j][k..k + |pat|][m] == pat[m];
    }
    assert s[i + k..i + k + |pat|] == pat;
  }

  /** Whatever occurs in the trimmed string occurs in the original. */
  lemma {:induction false} TrimContains(s: string, pat: string)
    requires Contains(Trim(s), pat)
    ensures Contains(s, pat)
  {
    var o := SkipSpaces(s, 0);
    var t := Trim(s);
    SliceContains(s, o, o + |t|, pat);
    ContainsIff(s, pat);
  }

  /** `substring` with bounds already in order and in range is the plain slice. */
  lemma {:induction false} SubstringInRange(s: string, a: int, b: int)
    requires 0 <= a <= b <= |s|
    ensures Substring(s, a, b) == s[a..b]
  {
  }

  /** `substring` with bounds in range but reversed slices between them the other way round. */
  lemma {:induction false} SubstringSwapped(s: string, a: int, b: int)
    requires 0 <= b < a <= |s|
    ensures Substring(s, a, b) == s[b..a]
  {
  }

  /** A string ends with what was appended to it. */
  lemma EndsWithAppend(s: string, t: string)
    ensures EndsWith(s + t, t)
  {
    assert (s + t)[|s + t| - |t|..] == t;
  }

  /** Appending the same text to both sides keeps a suffix a suffix. */
  lemma EndsWithExtend(s: string, a: string, t: string)
    requires EndsWith(s, a)
    ensures EndsWith(s + t, a + t)
  {
    assert (s + t)[|s + t| - |a + t|..] == s[|s| - |a|..] + t;
  }

  /** A string that ends with `a + b` ends with `b`. */
  lemma {:induction false} EndsWithSuffix(s: string, a: string, b: string)
    requires EndsWith(s, a + b)
    ensures EndsWith(s, b)
  {
    assert s[|s| - |b|..] == s[|s| - |a + b|..][|a|..];
  }

  /** The character at offset `k` of an occurrence of `pat` is `pat[k]`. */
  lemma {:induction false} CharOfOccurrence(s: string, pat: string, p: int, k: int)
    requires OccursAt(s, pat, p) && 0 <= k < |pat|
    ensures s[p + k] == pat[k]
  {
    assert s[p..p + |pat|][k] == s[p + k];
  }

  /** Trimming twice is trimming once. */
  lemma {:induction false} TrimIdempotent(s: string)
    ensures Trim(Trim(s)) == Trim(s)
  {
    if Trim(s) != [] {
      TrimNoop(Trim(s));
    }
  }

  /** Replacing the first occurrence of a pattern by itself changes nothing. */
  lemma {:induction false} ReplaceFirstSelf(s: string, pat: string)
    ensures ReplaceFirst(s, pat, pat) == s
  {
    if Contains(s, pat) {
      var i := IndexOf(s, pat);
      assert s[..i] + s[i..i + |pat|] + s[i + |pat|..] == s;
    }
  }

  // ---------------------------------------------------------------- UTF-16 code units

  type CodeUnit = x: int | 0 <= x < 0x1_0000

  /** The code units of one character: itself below U+10000, otherwise its surrogate pair. */
  function CharUnits(c: char): (u: seq<CodeUnit>)
    ensures 1 <= |u| <= 2
    ensures |u| == 1 <==> c as int < 0x1_0000
  {
    if c as int < 0x1_0000 then [c as int]
    else
      var v := c as int - 0x1_0000;
      [0xD800 + v / 0x400, 0xDC00 + v % 0x400]
  }

  /** The UTF-16 code units JavaScript stores for `s`: what `length` counts and `charCodeAt`
      reads. */
  function Utf16(s: string): (u: seq<CodeUnit>)
    ensures |s| <= |u| <= 2 * |s|
  {
    if s == [] then [] else CharUnits(s[0]) + Utf16(s[1..])
  }

  lemma {:induction false} Utf16Append(s: string, t: string)
    ensures Utf16(s + t) == Utf16(s) + Utf16(t)
    decreases |s|
  {
    if s == [] {
      assert s + t == t;
    } else {
      assert (s + t)[1..] == s[1..] + t;
      Utf16Append(s[1..], t);
    }
  }

  /** Characters of the Basic Multilingual Plane are one code unit each, so for a string of them
      the unit view and the character view agree. */
  lemma {:induction false} Utf16OfBmp(s: string)
    requires forall i :: 0 <= i < |s| ==> s[i] as int < 0x1_0000
    ensures |Utf16(s)| == |s|
    ensures forall i :: 0 <= i < |s| ==> Utf16(s)[i] == s[i] as int
    decreases |s|
  {
    if s != [] {
      Utf16OfBmp(s[1..]);
    }
  }

  /** Reads the characters back from code units; a lone surrogate has no character. */
  function FromUtf16(u: seq<CodeUnit>): (r: Option<string>)
    decreases |u|
  {
    if u == [] then Some([])
    else if 0xD800 <= u[0] < 0xDC00 then
      if |u| >= 2 && 0xDC00 <= u[1] < 0xE000 then
        var c := (0x1_0000 + (u[0] as int - 0xD800) * 0x400 + (u[1] as int - 0xDC00)) as char;
        match FromUtf16(u[2..])
        case Some(rest) => Some([c] + rest)
        case None => None
      else None
    else if 0xDC00 <= u[0] < 0xE000 then None
    else
      match FromUtf16(u[1..])
      case Some(rest) => Some([(u[0] as int) as char] + rest)
      case None => None
  }

  /** Every string is read back from its code units. */
  lemma {:induction false} Utf16RoundTrip(s: string)
    ensures FromUtf16(Utf16(s)) == Some(s)
    decreases |s|
  {
    if s != [] {
      Utf16RoundTrip(s[1..]);
      var u := Utf16(s);
      var h := CharUnits(s[0]);
      assert u == h + Utf16(s[1..]);
      if |h| == 2 {
        assert u[2..] == Utf16(s[1..]);
      } else {
        assert u[1..] == Utf16(s[1..]);
      }
      assert [s[0]] + s[1..] == s;
    }
  }

  /** Code units that end in the high half of a surrogate pair read back as no string. */
  lemma {:induction false} LoneHighSurrogate(u: seq<CodeUnit>)
    requires |u| > 0 && 0xD800 <= u[|u| - 1] < 0xDC00
    ensures FromUtf16(u) == None
    decreases |u|
  {
    if |u| > 1 {
      if 0xD800 <= u[0] < 0xDC00 {
        if 0xDC00 <= u[1] < 0xE000 {
          assert |u| > 2;
          LoneHighSurrogate(u[2..]);
        }
      } else if !(0xDC00 <= u[0] < 0xE000) {
        LoneHighSurrogate(u[1..]);
      }
    }
  }
}
