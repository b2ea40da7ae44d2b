/**
 * Character-bigram Jaccard similarity (`ngram_similarity`, called with its
 * default n = 2 everywhere) and the fuzzy fallback scan that keeps the
 * earliest vocabulary word of strictly highest similarity above 0.7.
 */
module Similarity {
  import opened Text
  import opened Wrappers

  /** `get_ngrams(word, 2)`: the set of two-character substrings. */
  function Bigrams(w: string): set<string>
    decreases |w|
  {
    if |w| < 2 then {} else {w[..2]} + Bigrams(w[1..])
  }

  /** `ngram_similarity(word1, word2)`: |common bigrams| / |all bigrams| of the lower-cased words. */
  function NgramSimilarity(a: string, b: string): real
  {
    if a == [] || b == [] then 0.0 else Jaccard(Bigrams(Lower(a)), Bigrams(Lower(b)))
  }

  /** |g1 ∩ g2| / |g1 ∪ g2|, and 0 when both sets are empty. */
  function Jaccard(g1: set<string>, g2: set<string>): real
  {
    var union := |g1 + g2|;
    if union == 0 then 0.0 else (|g1 * g2| as real) / (union as real)
  }

  lemma SubsetCardinality<T>(a: set<T>, b: set<T>)
    requires a <= b
    ensures |a| <= |b|
  {
    assert b == a + (b - a);
    assert a * (b - a) == {};
  }

  lemma JaccardBounds(g1: set<string>, g2: set<string>)
    ensures 0.0 <= Jaccard(g1, g2) <= 1.0
    ensures g1 == {} ==> Jaccard(g1, g2) == 0.0
  {
    SubsetCardinality(g1 * g2, g1 + g2);
    if g1 == {} {
      assert g1 * g2 == {};
    }
    var union := |g1 + g2|;
    if union != 0 {
      var r := (|g1 * g2| as real) / (union as real);
      assert r * (union as real) == |g1 * g2| as real;
    }
  }

  /** Similarity is a ratio in [0, 1], and is 0 when either word has fewer than two characters. */
  lemma SimilarityBounds(a: string, b: string)
    ensures 0.0 <= NgramSimilarity(a, b) <= 1.0
    ensures |a| < 2 || |b| < 2 ==> NgramSimilarity(a, b) == 0.0
  {
    if a != [] && b != [] {
      var g1 := Bigrams(Lower(a));
      var g2 := Bigrams(Lower(b));
      JaccardBounds(g1, g2);
      JaccardBounds(g2, g1);
      assert g1 + g2 == g2 + g1 && g1 * g2 == g2 * g1;
    }
  }

  /** Similarity does not depend on argument order or on letter case. */
  lemma SimilaritySymmetricCaseless(a: string, b: string)
    ensures NgramSimilarity(a, b) == NgramSimilarity(b, a)
    ensures NgramSimilarity(a, b) == NgramSimilarity(Lower(a), Lower(b))
  {
    CaseMappingsIdempotent(a);
    CaseMappingsIdempotent(b);
    var g1 := Bigrams(Lower(a));
    var g2 := Bigrams(Lower(b));
    assert g1 + g2 == g2 + g1;
    assert g1 * g2 == g2 * g1;
  }

  /** A word of two or more characters is fully similar to itself. */
  lemma SimilarityReflexive(a: string)
    requires |a| >= 2
    ensures NgramSimilarity(a, a) == 1.0
  {
    var g := Bigrams(Lower(a));
    assert Lower(a)[..2] in g;
    assert g + g == g && g * g == g;
  }

  /** The acceptance threshold of the fuzzy fallback: similarity must exceed it strictly. */
  const FuzzyThreshold: real := 0.7

  /** Similarity of every vocabulary word to `word`, in vocabulary order. */
  function Similarities(word: string, vocab: seq<string>): (scores: seq<real>)
    ensures |scores| == |vocab|
    ensures forall i :: 0 <= i < |vocab| ==> scores[i] == NgramSimilarity(word, vocab[i])
  {
    seq(|vocab|, i requires 0 <= i < |vocab| => NgramSimilarity(word, vocab[i]))
  }

  /** The similarity of `vocab[i]` to `word`, as the scan loop computes it. */
  method Similarity(word: string, vocab: seq<string>, i: nat) returns (s: real)
    requires i < |vocab|
    ensures s == Similarities(word, vocab)[i]
  {
    s := NgramSimilarity(word, vocab[i]);
  }

  /** The running best score: that of the pick so far, 0.0 before any pick. */
  function PickedScore(scores: seq<real>, best: Option<nat>): real
  {
    match best
    case None => 0.0
    case Some(j) => if j < |scores| then scores[j] else 0.0
  }

  /**
   * The fuzzy scan over `scores[..n]`: an entry replaces the current pick when
   * its score exceeds both the current best and the threshold.
   */
  function ScanBest(scores: seq<real>, n: nat): (r: Option<nat>)
    requires n <= |scores|
    ensures r.Some? ==> r.value < n
  {
    if n == 0 then None
    else
      var previous := ScanBest(scores, n - 1);
      if scores[n - 1] > PickedScore(scores, previous) && scores[n - 1] > FuzzyThreshold
      then Some(n - 1) else previous
  }

  /** The best-so-far pick over the similarities of `vocab[..n]`. */
  function FuzzyScan(word: string, vocab: seq<string>, n: nat): (r: Option<nat>)
    requires n <= |vocab|
    ensures r.Some? ==> r.value < n
  {
    ScanBest(Similarities(word, vocab), n)
  }

  /**
   * The scan finds nothing exactly when no score is above the threshold;
   * otherwise it picks an entry above the threshold that no other entry beats,
   * and no earlier entry ties with it.
   */
  lemma {:induction false} ScanBestIsEarliestMaximum(scores: seq<real>, n: nat)
    requires n <= |scores|
    ensures ScanBest(scores, n).None? <==> forall i :: 0 <= i < n ==> scores[i] <= FuzzyThreshold
    ensures ScanBest(scores, n).Some? ==>
      && scores[ScanBest(scores, n).value] > FuzzyThreshold
      && (forall i :: 0 <= i < n ==> scores[i] <= scores[ScanBest(scores, n).value])
      && (forall i :: 0 <= i < ScanBest(scores, n).value ==> scores[i] < scores[ScanBest(scores, n).value])
  {
    if n > 0 {
      ScanBestIsEarliestMaximum(scores, n - 1);
    }
  }

  /** What the fuzzy scan picks, stated on similarities. */
  lemma FuzzyScanPicksEarliestBest(word: string, vocab: seq<string>)
    ensures FuzzyScan(word, vocab, |vocab|).None? <==>
      forall i :: 0 <= i < |vocab| ==> Similarities(word, vocab)[i] <= FuzzyThreshold
    ensures FuzzyScan(word, vocab, |vocab|).Some? ==>
      var j := FuzzyScan(word, vocab, |vocab|).value;
      var scores := Similarities(word, vocab);
      && scores[j] > FuzzyThreshold
      && (forall i :: 0 <= i < |vocab| ==> scores[i] <= scores[j])
      && (forall i :: 0 <= i < j ==> scores[i] < scores[j])
  {
    ScanBestIsEarliestMaximum(Similarities(word, vocab), |vocab|);
  }

  /**
   * The scan loop of the fuzzy fallback: the index of the picked vocabulary
   * word and the running best similarity.
   */
  method FuzzySearch(word: string, vocab: seq<string>) returns (best: Option<nat>, bestSimilarity: real)
    ensures best == FuzzyScan(word, vocab, |vocab|)
    ensures bestSimilarity == PickedScore(Similarities(word, vocab), best)
  {
    ghost var scores := Similarities(word, vocab);
    best, bestSimilarity := None, 0.0;
    for i := 0 to |vocab|
      invariant best == ScanBest(scores, i)
      invariant bestSimilarity == PickedScore(scores, best)
    {
      var similarity := Similarity(word, vocab, i);
      ScanBestStep(scores, i, similarity, best, bestSimilarity);
      if similarity > bestSimilarity && similarity > FuzzyThreshold {
        best, bestSimilarity := Some(i), similarity;
      }
    }
  }

  /** One step of the scan, with the running best score it keeps. */
  lemma ScanBestStep(scores: seq<real>, i: nat, s: real, best: Option<nat>, bestScore: real)
    requires i < |scores| && s == scores[i]
    requires best == ScanBest(scores, i) && bestScore == PickedScore(scores, best)
    ensures var picks := s > bestScore && s > FuzzyThreshold;
      && ScanBest(scores, i + 1) == (if picks then Some(i) else best)
      && (picks ==> PickedScore(scores, Some(i)) == s)
  {
  }
}
