/**
 * `process_single_word` of vercel-deployment/api/translate.py: the
 * fallback cascade exact → rule → morphology → fuzzy for one word.
 */
module VercelSingleWord {
  import opened Wrappers
  import opened Text
  import opened Dictionary
  import opened Similarity
  import opened VercelMorphology
  import opened VercelRules
  import opened VercelTags

  datatype WordResult = WordResult(translation: string, kind: WordKind, confidence: real)

  /** The first ranked form, from `forms[i..]`, that the dictionary or the rules translate. */
  function MorphScan(forms: seq<Candidate>, d: Dict, i: nat): Option<WordResult>
    decreases |forms| - i
  {
    if i >= |forms| then None
    else
      var m := MorphAt(forms[i], d);
      if m.Some? then m else MorphScan(forms, d, i + 1)
  }

  /** One ranked form: a dictionary hit, else a rule other than "none", weighted by the form's confidence. */
  function MorphAt(f: Candidate, d: Dict): Option<WordResult>
  {
    match Lookup(d, f.form)
    case Some(t) => Some(WordResult(t, Morphological, f.confidence))
    case None =>
      var rr := ApplyRules(f.form, d, {});
      if rr.rule != NoRule then Some(WordResult(rr.translation, MorphRule(rr.rule), f.confidence * rr.confidence))
      else None
  }

  /** The fuzzy step: the best key above the threshold, unless its translation is empty. */
  function FuzzyStep(w: string, d: Dict): Option<WordResult>
  {
    match FuzzyScan(w, Keys(d), |d|)
    case None => None
    case Some(j) =>
      if d[j].value != "" then Some(WordResult(d[j].value, Fuzzy(d[j].key), Similarities(w, Keys(d))[j]))
      else None
  }

  /** What `process_single_word(word, _, d)` returns. */
  function SingleWord(word: string, d: Dict): WordResult
  {
    var w := Lower(word);
    match Lookup(d, w)
    case Some(t) => WordResult(t, Exact, 1.0)
    case None =>
      var rr := ApplyRules(w, d, {});
      if rr.rule != NoRule then WordResult(rr.translation, ByRule(rr.rule), rr.confidence)
      else
        match MorphScan(Analysis(w), d, 0)
        case Some(r) => r
        case None =>
          match FuzzyStep(w, d)
          case Some(r) => r
          case None => WordResult(word, NoMatch, 0.0)
  }

  method ProcessSingleWord(word: string, d: Dict) returns (r: WordResult)
    ensures r == SingleWord(word, d)
  {
    var w := Lower(word);
    match Lookup(d, w) {
      case Some(t) =>
        return WordResult(t, Exact, 1.0);
      case None =>
    }
    var rr := ApplyRules(w, d, {});
    if rr.rule != NoRule {
      return WordResult(rr.translation, ByRule(rr.rule), rr.confidence);
    }
    var forms := AnalyzeMorphology(w);
    var m := MorphSearch(forms, d);
    if m.Some? {
      return m.value;
    }
    var f := FuzzyMatch(w, d);
    if f.Some? {
      return f.value;
    }
    return WordResult(word, NoMatch, 0.0);
  }

  /** The loop over the ranked forms of `process_single_word`. */
  method MorphSearch(forms: seq<Candidate>, d: Dict) returns (r: Option<WordResult>)
    ensures r == MorphScan(forms, d, 0)
  {
    for i := 0 to |forms|
      invariant MorphScan(forms, d, i) == MorphScan(forms, d, 0)
    {
      var m := TryForm(forms[i], d);
      if m.Some? {
        return m;
      }
    }
    return None;
  }

  /** The body of that loop for one form. */
  method TryForm(f: Candidate, d: Dict) returns (r: Option<WordResult>)
    ensures r == MorphAt(f, d)
  {
    match Lookup(d, f.form) {
      case Some(t) =>
        return Some(WordResult(t, Morphological, f.confidence));
      case None =>
    }
    var fr := ApplyRules(f.form, d, {});
    assert MorphAt(f, d) == if fr.rule != NoRule then Some(WordResult(fr.translation, MorphRule(fr.rule), f.confidence * fr.confidence)) else None;
    if fr.rule != NoRule {
      return Some(WordResult(fr.translation, MorphRule(fr.rule), f.confidence * fr.confidence));
    }
    return None;
  }

  /** The fuzzy loop over the dictionary keys of `process_single_word`. */
  method FuzzyMatch(w: string, d: Dict) returns (r: Option<WordResult>)
    ensures r == FuzzyStep(w, d)
  {
    var best, bestSimilarity := FuzzySearch(w, Keys(d));
    if best.Some? && d[best.value].value != "" {
      return Some(WordResult(d[best.value].value, Fuzzy(d[best.value].key), bestSimilarity));
    }
    return None;
  }

  // ---------------------------------------------------------------------
  // What the cascade promises.

  /** `forms[k]` is the first ranked form that the dictionary or the rules translate. */
  predicate FirstHit(forms: seq<Candidate>, d: Dict, k: nat)
  {
    k < |forms| && MorphAt(forms[k], d).Some? && forall j :: 0 <= j < k ==> MorphAt(forms[j], d).None?
  }

  lemma {:induction false} MorphScanFinds(forms: seq<Candidate>, d: Dict, i: nat)
    requires i <= |forms|
    requires forall j :: 0 <= j < i ==> MorphAt(forms[j], d).None?
    ensures MorphScan(forms, d, i).None? <==> forall j :: 0 <= j < |forms| ==> MorphAt(forms[j], d).None?
    ensures MorphScan(forms, d, i).Some? ==>
      exists k :: i <= k && FirstHit(forms, d, k) && MorphScan(forms, d, i) == MorphAt(forms[k], d)
    decreases |forms| - i
  {
    if i < |forms| {
      if MorphAt(forms[i], d).None? {
        MorphScanFinds(forms, d, i + 1);
      } else {
        assert FirstHit(forms, d, i);
      }
    }
  }

  lemma UnitProduct(x: real, y: real)
    requires 0.0 <= x <= 1.0 && 0.0 <= y <= 1.0
    ensures 0.0 <= x * y <= 1.0
  {
    if x == 0.0 || y == 0.0 {
      assert x * y == 0.0;
    } else {
      ProductBound(x, y, 1.0);
    }
  }

  /** A form's result keeps its confidence in [0, 1]. */
  lemma MorphAtBounds(f: Candidate, d: Dict)
    requires 0.0 <= f.confidence <= 1.0
    ensures MorphAt(f, d).Some? ==> 0.0 <= MorphAt(f, d).value.confidence <= 1.0
  {
    var rr := ApplyRules(f.form, d, {});
    UnitProduct(f.confidence, rr.confidence);
  }

  /** The fuzzy step picked entry `j`: the earliest key of highest similarity, above the threshold. */
  predicate FuzzyPick(w: string, d: Dict, j: nat, r: WordResult)
  {
    && j < |d|
    && r == WordResult(d[j].value, Fuzzy(d[j].key), NgramSimilarity(w, d[j].key))
    && d[j].value != ""
    && NgramSimilarity(w, d[j].key) > FuzzyThreshold
    && (forall i :: 0 <= i < |d| ==> NgramSimilarity(w, d[i].key) <= NgramSimilarity(w, d[j].key))
    && (forall i :: 0 <= i < j ==> NgramSimilarity(w, d[i].key) < NgramSimilarity(w, d[j].key))
  }

  lemma FuzzyStepPicks(w: string, d: Dict)
    ensures FuzzyStep(w, d).Some? ==> FuzzyPick(w, d, FuzzyScan(w, Keys(d), |d|).value, FuzzyStep(w, d).value)
  {
    FuzzyScanPicksEarliestBest(w, Keys(d));
  }

  /**
   * The cascade: a dictionary hit on the lower-cased word wins with
   * confidence 1.0; a morphological result comes from the first ranked
   * proper stem that translates; a fuzzy result is the earliest best key
   * above 0.7; failure returns the word as given with confidence 0.0; and
   * the confidence always lies in [0, 1].
   */
  lemma SingleWordProperties(word: string, d: Dict)
    ensures var w := Lower(word); var r := SingleWord(word, d);
      && (HasKey(d, w) ==> r == WordResult(Lookup(d, w).value, Exact, 1.0))
      && (r.kind.Morphological? || r.kind.MorphRule? ==>
            exists k :: 1 <= k && FirstHit(Analysis(w), d, k) && r == MorphAt(Analysis(w)[k], d).value
                        && Stem(w, Suffixes, Prefixes, Analysis(w)[k], true))
      && (r.kind.Fuzzy? ==> exists j :: FuzzyPick(w, d, j, r))
      && (r.kind == NoMatch ==> r == WordResult(word, NoMatch, 0.0))
      && 0.0 <= r.confidence <= 1.0
  {
    var w := Lower(word);
    var r := SingleWord(word, d);
    var forms := Analysis(w);
    CaseMappingsIdempotent(word);
    AnalysisProperties(w);
    if !HasKey(d, w) && ApplyRules(w, d, {}).rule == NoRule {
      assert MorphAt(forms[0], d).None?;
      MorphScanFinds(forms, d, 0);
      match MorphScan(forms, d, 0)
      case Some(m) =>
        var k :| 0 <= k && FirstHit(forms, d, k) && MorphScan(forms, d, 0) == MorphAt(forms[k], d);
        assert k != 0;
        assert Stem(w, Suffixes, Prefixes, forms[k], true);
        MorphAtBounds(forms[k], d);
      case None =>
        FuzzyStepPicks(w, d);
        match FuzzyStep(w, d)
        case Some(f) =>
          var j := FuzzyScan(w, Keys(d), |d|).value;
          assert FuzzyPick(w, d, j, r);
          SimilarityBounds(w, d[j].key);
        case None =>
    }
  }
}
