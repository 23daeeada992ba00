/**
 * The JavaScript string built-ins the two screens use: `trim`, an ASCII
 * model of `toLowerCase`/`toUpperCase`, and `replace` with a one-character
 * string pattern, which replaces only the first occurrence. `IndexOf` is
 * the search step of that `replace`; the screens do not call `indexOf`.
 */
module JsString {

  /** The characters `String.prototype.trim` removes: ECMAScript's
      WhiteSpace (tab, vertical tab, form feed, space, no-break space,
      byte order mark and the space separators) and LineTerminator. */
  predicate IsWhitespace(c: char)
  {
    || c == '\t' || c == '\n' || c == '\U{B}' || c == '\U{C}' || c == '\r' || c == ' '
    || c == '\U{A0}' || c == '\U{1680}' || ('\U{2000}' <= c <= '\U{200A}')
    || c == '\U{2028}' || c == '\U{2029}' || c == '\U{202F}' || c == '\U{205F}'
    || c == '\U{3000}' || c == '\U{FEFF}'
  }

  /** Neither end of `s` is whitespace. */
  predicate IsTrimmed(s: string)
  {
    s == [] || (!IsWhitespace(s[0]) && !IsWhitespace(s[|s| - 1]))
  }

  /** Where the run of whitespace of `s` that starts at `i` ends. */
  function SpaceEnd(s: string, i: nat): (n: nat)
    requires i <= |s|
    ensures i <= n <= |s|
    ensures forall k :: i <= k < n ==> IsWhitespace(s[k])
    ensures n < |s| ==> !IsWhitespace(s[n])
    decreases |s| - i
  {
    if i < |s| && IsWhitespace(s[i]) then SpaceEnd(s, i + 1) else i
  }

  /** Where the run of whitespace of `s` that ends at `j` starts. */
  function SpaceStart(s: string, j: nat): (n: nat)
    requires j <= |s|
    ensures n <= j
    ensures forall k :: n <= k < j ==> IsWhitespace(s[k])
    ensures n > 0 ==> !IsWhitespace(s[n - 1])
  {
    if j > 0 && IsWhitespace(s[j - 1]) then SpaceStart(s, j - 1) else j
  }

  /** `String.prototype.trim`: the substring of `s` between its leading and
      its trailing whitespace; empty when `s` is all whitespace. */
  function Trim(s: string): (r: string)
    ensures IsTrimmed(r)
    ensures r == [] <==> SpaceEnd(s, 0) == |s|
    ensures r != [] ==> r == s[SpaceEnd(s, 0)..SpaceStart(s, |s|)]
  {
    var a, b := SpaceEnd(s, 0), SpaceStart(s, |s|);
    if a < b then s[a..b] else []
  }

  /** A trimmed string is its own trim. */
  lemma TrimOfTrimmed(s: string)
    requires IsTrimmed(s)
    ensures Trim(s) == s
  {
  }

  /** Trimming twice is trimming once. */
  lemma TrimIdempotent(s: string)
    ensures Trim(Trim(s)) == Trim(s)
  {
    TrimOfTrimmed(Trim(s));
  }

  /** The trim is empty exactly when every character is whitespace, which is
      when the source's `!s.trim()` holds. */
  lemma TrimEmptyIffBlank(s: string)
    ensures Trim(s) == [] <==> forall i :: 0 <= i < |s| ==> IsWhitespace(s[i])
  {
  }

  predicate IsAsciiUpper(c: char) { 'A' <= c <= 'Z' }

  predicate IsAsciiLower(c: char) { 'a' <= c <= 'z' }

  /** `toLowerCase` on one character, for the ASCII letters. */
  function LowerChar(c: char): (r: char)
    ensures !IsAsciiUpper(r)
    ensures IsAsciiUpper(c) ==> IsAsciiLower(r) && r as int == c as int + 32
    ensures !IsAsciiUpper(c) ==> r == c
  {
    if IsAsciiUpper(c) then (c as int + 32) as char else c
  }

  /** `toUpperCase` on one character, for the ASCII letters. */
  function UpperChar(c: char): (r: char)
    ensures !IsAsciiLower(r)
    ensures IsAsciiLower(c) ==> IsAsciiUpper(r) && r as int == c as int - 32
    ensures !IsAsciiLower(c) ==> r == c
  {
    if IsAsciiLower(c) then (c as int - 32) as char else c
  }

  /** `String.prototype.toLowerCase`: the same letters, none in upper case. */
  function Lower(s: string): (r: string)
    ensures |r| == |s|
    ensures forall i :: 0 <= i < |r| ==> r[i] == LowerChar(s[i])
  {
    seq(|s|, i requires 0 <= i < |s| => LowerChar(s[i]))
  }

  /** Case mapping never turns whitespace into non-whitespace or back. */
  lemma LowerKeepsWhitespace(c: char)
    ensures IsWhitespace(LowerChar(c)) == IsWhitespace(c)
  {
  }

  /** Strings with whitespace at the same positions have the same runs of
      whitespace. */
  lemma SameSpaceEnd(s: string, l: string, i: nat)
    requires |s| == |l| && i <= |s|
    requires forall k :: 0 <= k < |s| ==> IsWhitespace(l[k]) == IsWhitespace(s[k])
    ensures SpaceEnd(l, i) == SpaceEnd(s, i)
    decreases |s| - i
  {
    if i < |s| && IsWhitespace(s[i]) {
      SameSpaceEnd(s, l, i + 1);
    }
  }

  lemma SameSpaceStart(s: string, l: string, j: nat)
    requires |s| == |l| && j <= |s|
    requires forall k :: 0 <= k < |s| ==> IsWhitespace(l[k]) == IsWhitespace(s[k])
    ensures SpaceStart(l, j) == SpaceStart(s, j)
  {
    if j > 0 && IsWhitespace(s[j - 1]) {
      SameSpaceStart(s, l, j - 1);
    }
  }

  lemma LowerSlice(s: string, a: nat, b: nat)
    requires a <= b <= |s|
    ensures Lower(s[a..b]) == Lower(s)[a..b]
  {
    var t, lt, l := s[a..b], Lower(s[a..b]), Lower(s);
    forall i | 0 <= i < |t| ensures lt[i] == l[a + i] {
      assert t[i] == s[a + i];
    }
  }

  /** Lower-casing keeps the leading and the trailing whitespace. */
  lemma LowerSameSpacing(s: string)
    ensures SpaceEnd(Lower(s), 0) == SpaceEnd(s, 0)
    ensures SpaceStart(Lower(s), |s|) == SpaceStart(s, |s|)
  {
    var l := Lower(s);
    forall k | 0 <= k < |s| ensures IsWhitespace(l[k]) == IsWhitespace(s[k]) {
      LowerKeepsWhitespace(s[k]);
    }
    SameSpaceEnd(s, l, 0);
    SameSpaceStart(s, l, |s|);
  }

  /** Lower-casing and trimming commute, so `name.toLowerCase().trim()` is
      also the lower-cased trimmed name. */
  lemma LowerTrimCommute(s: string)
    ensures Trim(Lower(s)) == Lower(Trim(s))
  {
    LowerSameSpacing(s);
    var a, b := SpaceEnd(s, 0), SpaceStart(s, |s|);
    if a < b {
      LowerSlice(s, a, b);
    }
  }

  /** The first position of `c` in `s`, or -1: where `replace` with a
      string pattern finds the occurrence it replaces. */
  function IndexOf(s: string, c: char): (k: int)
    ensures -1 <= k < |s|
    ensures k == -1 <==> c !in s
    ensures k >= 0 ==> s[k] == c && c !in s[..k]
  {
    if s == [] then -1
    else if s[0] == c then 0
    else
      var k := IndexOf(s[1..], c);
      assert s[1..][..k + 1] == s[1..k + 2] by { if k >= 0 { assert k + 2 <= |s|; } }
      if k < 0 then -1 else k + 1
  }

  /** `s.replace(from, to)` with a one-character string pattern: only the
      first occurrence of `from` is replaced. */
  function ReplaceFirst(s: string, from: char, to: char): (r: string)
    ensures |r| == |s|
    ensures from !in s ==> r == s
    ensures var k := IndexOf(s, from); k >= 0 ==> r == s[..k] + [to] + s[k + 1..]
  {
    if s == [] then []
    else if s[0] == from then [to] + s[1..]
    else [s[0]] + ReplaceFirst(s[1..], from, to)
  }

  /** One occurrence of `from` fewer, and every later one survives. */
  lemma ReplaceFirstCount(s: string, from: char, to: char)
    requires from != to && from in s
    ensures multiset(ReplaceFirst(s, from, to))[from] == multiset(s)[from] - 1
  {
    var k := IndexOf(s, from);
    var before, after := s[..k], s[k + 1..];
    assert s == before + [from] + after;
    assert multiset(s) == multiset(before) + multiset{from} + multiset(after);
    assert multiset(ReplaceFirst(s, from, to)) == multiset(before) + multiset{to} + multiset(after);
  }
}
