/**
 * Extraction of arXiv identifiers and DOIs from link texts and URLs, modelling
 * `re.search` of the two patterns each extractor tries in turn.
 */
module Identifiers {
  import opened Wrappers
  import opened Text

  /** The four regular expressions of the two extractors. */
  datatype Pattern =
    | Modern    // \d{4}\.\d{4,5}
    | Legacy    // [a-z-]+/\d{7}
    | Resolver  // doi\.org/(.+)
    | DoiSyntax // 10\.\d+/.+

  predicate MatchAt(p: Pattern, s: string, i: nat) {
    match p
    case Modern => ModernMatchAt(s, i)
    case Legacy => LegacyMatchAt(s, i)
    case Resolver => ResolverMatchAt(s, i)
    case DoiSyntax => DoiMatchAt(s, i)
  }

  /** The pattern matches at index i and at no earlier index. */
  predicate LeftmostMatch(p: Pattern, s: string, i: nat) {
    i < |s| && MatchAt(p, s, i) && forall j :: 0 <= j < i ==> !MatchAt(p, s, j)
  }

  /**
   * The leftmost index in [from, |s|) at which the pattern matches: what
   * `re.search` finds.
   */
  function FirstIndex(p: Pattern, s: string, from: nat): (r: Option<nat>)
    requires from <= |s|
    decreases |s| - from
    ensures r.Some? ==> from <= r.value < |s| && MatchAt(p, s, r.value)
    ensures r.Some? ==> forall j :: from <= j < r.value ==> !MatchAt(p, s, j)
    ensures r.None? ==> forall j :: from <= j < |s| ==> !MatchAt(p, s, j)
  {
    if from == |s| then None
    else if MatchAt(p, s, from) then Some(from)
    else FirstIndex(p, s, from + 1)
  }

  predicate IsLegacyChar(c: char) { IsLowerLetter(c) || c == '-' }

  predicate NotNewline(c: char) { c != '\n' }

  // ---------------------------------------------------------------- arXiv

  /** `\d{4}\.\d{4,5}` matches at index i. */
  predicate ModernMatchAt(s: string, i: nat) {
    i + 9 <= |s| && AllIn(s[i..i + 4], IsDigit) && s[i + 4] == '.' && AllIn(s[i + 5..i + 9], IsDigit)
  }

  /** Length of that match: the quantifier is greedy and takes a fifth digit when there is one. */
  function ModernLength(s: string, i: nat): (n: nat)
    requires MatchAt(Modern, s, i)
    ensures n == 9 || n == 10
    ensures i + n <= |s|
  {
    if i + 9 < |s| && IsDigit(s[i + 9]) then 10 else 9
  }

  /** Length of the `[a-z-]+` run that starts at index i. */
  function LegacyRun(s: string, i: nat): nat
    requires i <= |s|
  {
    RunLength(s[i..], IsLegacyChar)
  }

  /**
   * `[a-z-]+/\d{7}` matches at index i. The run is greedy and cannot give back
   * a character to the slash, so the match exists exactly when the whole run
   * starting at i is followed by a slash and seven digits.
   */
  predicate LegacyMatchAt(s: string, i: nat) {
    i < |s| && IsLegacyChar(s[i]) &&
    var k := i + LegacyRun(s, i);
    k + 8 <= |s| && s[k] == '/' && AllIn(s[k + 1..k + 8], IsDigit)
  }

  function LegacyLength(s: string, i: nat): (n: nat)
    requires MatchAt(Legacy, s, i)
    ensures i + n <= |s| && n >= 9
  {
    LegacyRun(s, i) + 8
  }

  /** The shape of an identifier of the current `YYMM.NNNN(N)` scheme. */
  predicate IsModernId(id: string) {
    (|id| == 9 || |id| == 10) && AllIn(id[..4], IsDigit) && id[4] == '.' && AllIn(id[5..], IsDigit)
  }

  /** The shape of an identifier of the pre-2007 `archive/NNNNNNN` scheme. */
  predicate IsLegacyId(id: string) {
    |id| >= 9 && AllIn(id[..|id| - 8], IsLegacyChar) && id[|id| - 8] == '/' && AllIn(id[|id| - 7..], IsDigit)
  }

  predicate HasModernMatch(s: string) { exists i :: 0 <= i < |s| && MatchAt(Modern, s, i) }

  predicate HasLegacyMatch(s: string) { exists i :: 0 <= i < |s| && MatchAt(Legacy, s, i) }

  /**
   * `extract_arxiv_id`: the leftmost match of the modern pattern anywhere in the
   * string, otherwise the leftmost match of the legacy pattern, otherwise None.
   */
  function ExtractArxivId(s: string): (r: Option<string>)
    ensures r.Some? <==> HasModernMatch(s) || HasLegacyMatch(s)
    ensures HasModernMatch(s) ==>
      exists i: nat :: LeftmostMatch(Modern, s, i)
                  && r == Some(s[i..i + ModernLength(s, i)])
    ensures !HasModernMatch(s) && HasLegacyMatch(s) ==>
      exists i: nat :: LeftmostMatch(Legacy, s, i)
                  && r == Some(s[i..i + LegacyLength(s, i)])
    ensures r.Some? ==> IsModernId(r.value) || IsLegacyId(r.value)
  {
    match FirstIndex(Modern, s, 0)
    case Some(i) =>
      ModernShape(s, i);
      Some(s[i..i + ModernLength(s, i)])
    case None =>
      match FirstIndex(Legacy, s, 0)
      case Some(i) =>
        LegacyShape(s, i);
        Some(s[i..i + LegacyLength(s, i)])
      case None => None
  }

  lemma ModernShape(s: string, i: nat)
    requires MatchAt(Modern, s, i)
    ensures IsModernId(s[i..i + ModernLength(s, i)])
  {
    var id := s[i..i + ModernLength(s, i)];
    assert id[..4] == s[i..i + 4];
    assert forall m :: 5 <= m < |id| ==> id[m] == s[i + m];
    assert forall m :: i + 5 <= m < i + 9 ==> s[i + 5..i + 9][m - i - 5] == s[m];
  }

  lemma LegacyShape(s: string, i: nat)
    requires MatchAt(Legacy, s, i)
    ensures IsLegacyId(s[i..i + LegacyLength(s, i)])
  {
    var k := i + LegacyRun(s, i);
    var id := s[i..k + 8];
    assert id[..|id| - 8] == s[i..][..LegacyRun(s, i)];
    assert id[|id| - 7..] == s[k + 1..k + 8];
  }

  /** The string text of a link such as "arXiv:2410.01204v2" yields "2410.01204". */
  lemma ArxivExample()
    ensures ExtractArxivId("arXiv:2410.01204v2") == Some("2410.01204")
  {
    var s := "arXiv:2410.01204v2";
    assert s[2] == 'X';
    assert s[5] == ':';
    assert forall j :: 0 <= j < 6 ==> !MatchAt(Modern, s, j) by {
      forall j | 0 <= j < 6 ensures !ModernMatchAt(s, j) {
        var bad := if j <= 2 then 2 else 5;
        assert s[j..j + 4][bad - j] == s[bad];
      }
    }
    assert s[6..10] == "2410" && s[10] == '.' && s[11..15] == "0120" && s[15] == '4';
    assert MatchAt(Modern, s, 6);
    assert FirstIndex(Modern, s, 0) == Some(6);
    assert ModernLength(s, 6) == 10;
    assert s[6..16] == "2410.01204";
  }

  // ---------------------------------------------------------------- DOI

  /** End of the line that contains index i (the first newline at or after i, or the end). */
  function LineEnd(s: string, i: nat): (e: nat)
    requires i <= |s|
    ensures i <= e <= |s|
    ensures AllIn(s[i..e], NotNewline)
  {
    var n := RunLength(s[i..], NotNewline);
    assert s[i..i + n] == s[i..][..n];
    i + n
  }

  /** `doi\.org/(.+)` matches at index i: the prefix, then at least one character before the newline. */
  predicate ResolverMatchAt(s: string, i: nat) {
    i + 8 < |s| && s[i..i + 8] == "doi.org/" && s[i + 8] != '\n'
  }

  /** `(10\.\d+/.+)` matches at index i; as above, the digit run is greedy and cannot give back to the slash. */
  predicate DoiMatchAt(s: string, i: nat) {
    i + 3 <= |s| && s[i..i + 3] == "10." &&
    var k := i + 3 + RunLength(s[i + 3..], IsDigit);
    k > i + 3 && k + 1 < |s| && s[k] == '/' && s[k + 1] != '\n'
  }

  predicate HasResolverMatch(s: string) { exists i :: 0 <= i < |s| && MatchAt(Resolver, s, i) }

  predicate HasDoiMatch(s: string) { exists i :: 0 <= i < |s| && MatchAt(DoiSyntax, s, i) }

  /**
   * `extract_doi`: after the leftmost "doi.org/" that is followed by text, the
   * rest of that line; otherwise, from the leftmost "10.<digits>/" followed by
   * text, the rest of that line; otherwise None.
   */
  function ExtractDoi(s: string): (r: Option<string>)
    ensures r.Some? <==> HasResolverMatch(s) || HasDoiMatch(s)
    ensures r.Some? ==> r.value != [] && AllIn(r.value, NotNewline)
    ensures HasResolverMatch(s) ==>
      exists i: nat :: LeftmostMatch(Resolver, s, i)
                  && r == Some(s[i + 8..LineEnd(s, i + 8)])
    ensures !HasResolverMatch(s) && HasDoiMatch(s) ==>
      exists i: nat :: LeftmostMatch(DoiSyntax, s, i)
                  && r == Some(s[i..LineEnd(s, i)])
    ensures r.Some? && !HasResolverMatch(s) ==> StartsWith(r.value, "10.")
  {
    match FirstIndex(Resolver, s, 0)
    case Some(i) =>
      RunLengthCovers(s[i + 8..], NotNewline, 1);
      assert LeftmostMatch(Resolver, s, i);
      Some(s[i + 8..LineEnd(s, i + 8)])
    case None =>
      match FirstIndex(DoiSyntax, s, 0)
      case Some(i) =>
        assert s[i..][..3] == "10.";
        RunLengthCovers(s[i..], NotNewline, 3);
        assert LeftmostMatch(DoiSyntax, s, i);
        assert s[i..LineEnd(s, i)][..3] == "10.";
        Some(s[i..LineEnd(s, i)])
      case None => None
  }

  /** A prefix whose characters are all in the class lies inside the run. */
  lemma {:induction false} RunLengthCovers(s: string, inClass: char -> bool, n: nat)
    requires n <= |s| && forall m :: 0 <= m < n ==> inClass(s[m])
    ensures RunLength(s, inClass) >= n
  {
    if n > 0 {
      assert forall m :: 0 <= m < n - 1 ==> inClass(s[1..][m]);
      RunLengthCovers(s[1..], inClass, n - 1);
    }
  }
}
