/**
 * `apply_rbmt_rules` of vercel-deployment/api/translate.py: a dictionary
 * hit, or up to two hops through a fixed synonym table, guarded by a set
 * of words already visited.
 */
module VercelRules {
  import opened Wrappers
  import opened Dictionary

  datatype Rule = Cycle | Direct | SynonymChain | DoubleSynonym | NoRule

  datatype RuleResult = RuleResult(translation: string, rule: Rule, confidence: real)

  /** A synonym and the confidence with which it replaces the word. */
  datatype Synonym = Synonym(target: string, weight: real)

  const Synonyms: map<string, Synonym> := map[
    "kawan" := Synonym("teman", 0.95),
    "teman" := Synonym("kawan", 0.95),
    "sobat" := Synonym("teman", 0.9),
    "sahabat" := Synonym("teman", 0.9)
  ]

  /** The second hop of the synonym chain, tried once `word` has been added to `visited`. */
  function SecondHop(d: Dict, synonym: string, visited: set<string>, weight: real): (r: RuleResult)
  {
    if synonym in Synonyms && synonym !in visited then
      var next := Synonyms[synonym];
      match Lookup(d, next.target)
      case Some(t) => RuleResult(t, DoubleSynonym, weight * next.weight)
      case None => RuleResult("", NoRule, 0.0)
    else RuleResult("", NoRule, 0.0)
  }

  /**
   * `apply_rbmt_rules(word, dict_data, visited)`. The source also adds
   * `word` to the caller's `visited` set; every caller passes a fresh set,
   * so only the copy seen by the second hop matters.
   */
  function ApplyRules(word: string, d: Dict, visited: set<string>): (r: RuleResult)
    ensures word in visited ==> r == RuleResult(word, Cycle, 0.0)
    ensures r.rule == Cycle <==> word in visited
    ensures word !in visited && HasKey(d, word) ==> r == RuleResult(Lookup(d, word).value, Direct, 1.0)
    ensures r.rule == Direct ==> Lookup(d, word) == Some(r.translation) && r.confidence == 1.0
    ensures r.rule == SynonymChain <==>
      word !in visited && !HasKey(d, word) && word in Synonyms && HasKey(d, Synonyms[word].target)
    ensures r.rule == SynonymChain ==>
      Lookup(d, Synonyms[word].target) == Some(r.translation) && r.confidence == Synonyms[word].weight
    ensures r.rule == DoubleSynonym <==>
      word !in visited && !HasKey(d, word) && word in Synonyms
      && var s := Synonyms[word];
      !HasKey(d, s.target) && s.target in Synonyms && s.target !in visited + {word}
      && HasKey(d, Synonyms[s.target].target)
    ensures r.rule == DoubleSynonym ==>
      var s := Synonyms[word];
      Lookup(d, Synonyms[s.target].target) == Some(r.translation)
      && r.confidence == s.weight * Synonyms[s.target].weight
    ensures r.rule == NoRule ==> r.translation == word && r.confidence == 0.0
    ensures 0.0 <= r.confidence <= 1.0
  {
    if word in visited then RuleResult(word, Cycle, 0.0)
    else
      var visited' := visited + {word};
      match Lookup(d, word)
      case Some(t) => RuleResult(t, Direct, 1.0)
      case None =>
        if word in Synonyms then
          var s := Synonyms[word];
          match Lookup(d, s.target)
          case Some(t) => RuleResult(t, SynonymChain, s.weight)
          case None =>
            var hop := SecondHop(d, s.target, visited', s.weight);
            if hop.rule == DoubleSynonym then hop else RuleResult(word, NoRule, 0.0)
        else RuleResult(word, NoRule, 0.0)
  }

  /**
   * From a fresh visited set (as every caller calls it) there is no cycle
   * and no direct hit on a word the dictionary lacks, and the double hop is
   * taken exactly for sobat/sahabat via teman to the translation of kawan,
   * when the word and teman are missing and kawan is present.
   */
  lemma FreshRules(word: string, d: Dict)
    ensures ApplyRules(word, d, {}).rule != Cycle
    ensures !HasKey(d, word) ==> ApplyRules(word, d, {}).rule != Direct
    ensures ApplyRules(word, d, {}).rule == DoubleSynonym ==>
      (word == "sobat" || word == "sahabat")
      && Lookup(d, "kawan") == Some(ApplyRules(word, d, {}).translation)
      && ApplyRules(word, d, {}).confidence == 0.9 * 0.95
    ensures
      (word == "sobat" || word == "sahabat") && !HasKey(d, word) && !HasKey(d, "teman") && HasKey(d, "kawan")
      ==> ApplyRules(word, d, {}).rule == DoubleSynonym
  {
  }
}
