/**
 * Character classes and string operations the scripts rely on: the ASCII part of
 * the regular-expression classes \d, \w and \s, `str.lower`, `re.findall` of a
 * one-class pattern, `str.split`, `str.join`, `str.replace`, `str.startswith` and
 * Python's ordering of strings.
 */
module Text {

  predicate IsDigit(c: char) { '0' <= c <= '9' }

  predicate IsLowerLetter(c: char) { 'a' <= c <= 'z' }

  /** \w restricted to ASCII: letters, digits and the underscore. */
  predicate IsWord(c: char) { IsLowerLetter(c) || 'A' <= c <= 'Z' || IsDigit(c) || c == '_' }

  /** \s and `str.isspace` restricted to ASCII. */
  predicate IsSpace(c: char) {
    c == ' ' || c == '\t' || c == '\n' || c == '\r' || c == '\U{000B}' || c == '\U{000C}'
    || c == '\U{001C}' || c == '\U{001D}' || c == '\U{001E}' || c == '\U{001F}'
  }

  predicate NotSpace(c: char) { !IsSpace(c) }

  function LowerChar(c: char): char {
    if 'A' <= c <= 'Z' then (c as int - 'A' as int + 'a' as int) as char else c
  }

  /** `str.lower` on ASCII. */
  function Lower(s: string): (r: string)
    ensures |r| == |s|
    ensures forall i :: 0 <= i < |s| ==> r[i] == LowerChar(s[i])
  {
    seq(|s|, i requires 0 <= i < |s| => LowerChar(s[i]))
  }

  predicate AllIn(s: string, inClass: char -> bool) {
    forall i :: 0 <= i < |s| ==> inClass(s[i])
  }

  predicate StartsWith(s: string, prefix: string) {
    |prefix| <= |s| && s[..|prefix|] == prefix
  }

  /** Length of the longest prefix of `s` whose characters are all in the class. */
  function RunLength(s: string, inClass: char -> bool): (n: nat)
    ensures n <= |s|
    ensures AllIn(s[..n], inClass)
    ensures n < |s| ==> !inClass(s[n])
  {
    if s == [] || !inClass(s[0]) then 0
    else
      var m := RunLength(s[1..], inClass);
      assert s[..1 + m] == [s[0]] + s[1..][..m];
      1 + m
  }

  /**
   * The maximal runs of characters in the class, left to right: `re.findall`
   * of the pattern `[class]+`, and `str.split()` for the class of non-space
   * characters.
   */
  function Runs(s: string, inClass: char -> bool): (r: seq<string>)
    decreases |s|
    ensures forall k :: 0 <= k < |r| ==> |r[k]| > 0 && AllIn(r[k], inClass)
  {
    if s == [] then []
    else if !inClass(s[0]) then Runs(s[1..], inClass)
    else
      var n := RunLength(s, inClass);
      [s[..n]] + Runs(s[n..], inClass)
  }

  /** `sep.join(parts)`. */
  function Join(parts: seq<string>, sep: string): string {
    if parts == [] then ""
    else if |parts| == 1 then parts[0]
    else parts[0] + sep + Join(parts[1..], sep)
  }

  /** `s.replace(pat, rep)`: every non-overlapping occurrence, scanning left to right. */
  function ReplaceAll(s: string, pat: string, rep: string): string
    requires |pat| > 0
    decreases |s|
  {
    if |s| < |pat| then s
    else if s[..|pat|] == pat then rep + ReplaceAll(s[|pat|..], pat, rep)
    else [s[0]] + ReplaceAll(s[1..], pat, rep)
  }

  /** True when no occurrence of `pat` starts inside `p`, whatever follows `p`. */
  predicate NoMatchStartsIn(p: string, pat: string) {
    forall j :: 0 <= j < |p| ==> !MatchMayStartAt(p, pat, j)
  }

  /** An occurrence of `pat` could start at index `j` of `p` (it may run past the end of `p`). */
  predicate MatchMayStartAt(p: string, pat: string, j: nat)
    requires j <= |p|
  {
    if |p| - j >= |pat| then p[j..j + |pat|] == pat else StartsWith(pat, p[j..])
  }

  lemma NoMatchStartsInTail(p: string, pat: string)
    requires p != [] && NoMatchStartsIn(p, pat)
    ensures NoMatchStartsIn(p[1..], pat)
  {
    forall j | 0 <= j < |p[1..]|
      ensures !MatchMayStartAt(p[1..], pat, j)
    {
      assert p[1..][j..] == p[j + 1..];
      assert !MatchMayStartAt(p, pat, j + 1);
    }
  }

  lemma NoMatchAtHead(p: string, s: string, pat: string)
    requires p != [] && NoMatchStartsIn(p, pat)
    ensures !StartsWith(p + s, pat)
  {
    assert !MatchMayStartAt(p, pat, 0);
    assert p[0..] == p;
    if |p| >= |pat| {
      assert (p + s)[..|pat|] == p[0..|pat|];
    }
  }

  /**
   * A prefix in which no occurrence of the pattern can start passes through the
   * replacement unchanged.
   */
  lemma {:induction false} ReplaceAllKeepsPrefix(p: string, s: string, pat: string, rep: string)
    requires |pat| > 0
    requires NoMatchStartsIn(p, pat)
    ensures ReplaceAll(p + s, pat, rep) == p + ReplaceAll(s, pat, rep)
  {
    if p == [] {
      assert p + s == s;
    } else if |p + s| < |pat| {
      assert ReplaceAll(s, pat, rep) == s;
    } else {
      NoMatchAtHead(p, s, pat);
      NoMatchStartsInTail(p, pat);
      ReplaceAllKeepsPrefix(p[1..], s, pat, rep);
      calc {
        ReplaceAll(p + s, pat, rep);
        [(p + s)[0]] + ReplaceAll((p + s)[1..], pat, rep);
        { assert (p + s)[1..] == p[1..] + s; }
        [p[0]] + ReplaceAll(p[1..] + s, pat, rep);
        [p[0]] + (p[1..] + ReplaceAll(s, pat, rep));
        { assert [p[0]] + p[1..] == p; }
        p + ReplaceAll(s, pat, rep);
      }
    }
  }

  /** Python's `<` on strings: lexicographic by code point, a proper prefix first. */
  predicate LexLess(a: string, b: string)
    decreases |a|
  {
    if a == [] then b != []
    else if b == [] then false
    else if a[0] != b[0] then a[0] < b[0]
    else LexLess(a[1..], b[1..])
  }

  function DigitChar(d: nat): char
    requires d < 10
  {
    ('0' as int + d) as char
  }

  function NatToString(n: nat): (r: string)
    ensures |r| > 0 && AllIn(r, IsDigit)
  {
    if n < 10 then [DigitChar(n)]
    else NatToString(n / 10) + [DigitChar(n % 10)]
  }

  /** `str(i)` for a Python int. */
  function IntToString(i: int): string {
    if i < 0 then "-" + NatToString(-i) else NatToString(i)
  }
}
