/**
 * Title similarity (a Jaccard index over lower-cased word tokens) and the
 * cleaning of a title into the query used by the title search.
 */
module Similarity {
  import opened Text

  /** The tokens `re.findall(r'\w+', t)`, in order and with their case. */
  function WordTokens(t: string): seq<string> {
    Runs(t, IsWord)
  }

  /** `set(re.findall(r'\w+', t.lower()))`. */
  function Words(t: string): set<string> {
    set w | w in WordTokens(Lower(t))
  }

  /** A non-negative rational shared / total, with a positive denominator. */
  datatype Ratio = Ratio(shared: nat, total: nat)

  /**
   * `title_similarity`: |words1 ∩ words2| / |words1 ∪ words2|, and 0 when either
   * title has no word token. The ratio is kept exact rather than as a float.
   */
  function TitleSimilarity(t1: string, t2: string): (r: Ratio)
    ensures 0 < r.total && r.shared <= r.total
    ensures Words(t1) == {} || Words(t2) == {} ==> r.shared == 0
    ensures Words(t1) != {} && Words(t2) != {} ==>
      r.shared == |Words(t1) * Words(t2)| && r.total == |Words(t1) + Words(t2)|
  {
    var w1, w2 := Words(t1), Words(t2);
    if w1 == {} || w2 == {} then Ratio(0, 1)
    else
      SubsetCard(w1 * w2, w1 + w2);
      Ratio(|w1 * w2|, |w1 + w2|)
  }

  /** `similarity > 0.8`, exactly: 5 · shared > 4 · total. */
  predicate Exceeds(r: Ratio) {
    5 * r.shared > 4 * r.total
  }

  lemma SubsetCard<T>(a: set<T>, b: set<T>)
    requires a <= b
    ensures |a| <= |b|
    ensures |a| == |b| ==> a == b
  {
    assert b == a + (b - a);
    assert |b| == |a| + |b - a|;
    if |a| == |b| {
      assert b - a == {};
    }
  }

  lemma SimilaritySymmetric(t1: string, t2: string)
    ensures TitleSimilarity(t1, t2) == TitleSimilarity(t2, t1)
  {
    assert Words(t1) * Words(t2) == Words(t2) * Words(t1);
    assert Words(t1) + Words(t2) == Words(t2) + Words(t1);
  }

  /** Similarity is 1 exactly when both titles have the same non-empty set of words. */
  lemma SimilarityOneIffSameWords(t1: string, t2: string)
    requires Words(t1) != {} || Words(t2) != {}
    ensures var r := TitleSimilarity(t1, t2); r.shared == r.total <==> Words(t1) == Words(t2)
  {
    var w1, w2 := Words(t1), Words(t2);
    if w1 != {} && w2 != {} {
      SubsetCard(w1 * w2, w1 + w2);
      if w1 * w2 == w1 + w2 {
        assert w1 <= w1 * w2 && w2 <= w1 * w2;
      }
    }
  }

  /** Every title whose words are those of the local title passes the 0.8 threshold. */
  lemma SameWordsExceed(t1: string, t2: string)
    requires Words(t1) != {} && Words(t1) == Words(t2)
    ensures Exceeds(TitleSimilarity(t1, t2))
  {
    SimilarityOneIffSameWords(t1, t2);
  }

  // ------------------------------------------------------------ query

  /** The substitution `re.sub(r'[^\w\s]', ' ', t)`. */
  function CleanChar(c: char): char {
    if IsWord(c) || IsSpace(c) then c else ' '
  }

  function Clean(t: string): (r: string)
    ensures |r| == |t|
  {
    seq(|t|, i requires 0 <= i < |t| => CleanChar(t[i]))
  }

  /** `clean_title.split()[:5]`, the words of the title query. */
  function QueryTokens(t: string): (r: seq<string>)
    ensures |r| <= 5
    ensures |WordTokens(t)| >= 5 ==> |r| == 5
    ensures |WordTokens(t)| < 5 ==> |r| == |WordTokens(t)|
    ensures r == WordTokens(t)[..|r|]
  {
    var tokens := Runs(Clean(t), NotSpace);
    CleanSplitIsWordTokens(t);
    if |tokens| <= 5 then tokens else tokens[..5]
  }

  /** `' '.join(clean_title.split()[:5])`, the text placed between quotes in `title:"..."`. */
  function Query(t: string): string {
    Join(QueryTokens(t), " ")
  }

  lemma CleanTail(t: string, n: nat)
    requires n <= |t|
    ensures Clean(t)[n..] == Clean(t[n..])
  {
  }

  lemma {:induction false} CleanRunLength(t: string)
    ensures RunLength(Clean(t), NotSpace) == RunLength(t, IsWord)
    ensures Clean(t)[..RunLength(t, IsWord)] == t[..RunLength(t, IsWord)]
    decreases |t|
  {
    if t != [] {
      CleanTail(t, 1);
      CleanRunLength(t[1..]);
    }
  }

  /**
   * Splitting the cleaned title on whitespace gives exactly its \w+ tokens: every
   * character that is neither a word character nor a space became a space.
   */
  lemma {:induction false} CleanSplitIsWordTokens(t: string)
    ensures Runs(Clean(t), NotSpace) == WordTokens(t)
    decreases |t|
  {
    if t != [] {
      if !IsWord(t[0]) {
        CleanTail(t, 1);
        CleanSplitIsWordTokens(t[1..]);
      } else {
        var n := RunLength(t, IsWord);
        CleanRunLength(t);
        CleanTail(t, n);
        CleanSplitIsWordTokens(t[n..]);
      }
    }
  }
}
