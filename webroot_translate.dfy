/**
 * `process_tokens` of webroot/server/main.py: Indonesian word tokens go
 * through exact lookup, the morphological forms and a fuzzy fallback over
 * the keys; Dayak Kenyah word tokens try phrase windows of 3, 2 and 1
 * tokens against the lower-cased values, then a fuzzy fallback over the
 * values. Every translation then follows the case of its token.
 */
module WebrootTranslate {
  import opened Wrappers
  import opened Text
  import opened Tokens
  import opened Dictionary
  import opened Similarity
  import opened WebrootMorphology

  /** Match types: "none", "exact", "morphological", "lightweight" and "exact_{n}gram". */
  datatype Tag = NoMatch | Exact | Morphological | Lightweight | Gram(n: nat)

  /** One entry of the result: (translation, match type, original token). */
  datatype TokenResult = TokenResult(translation: string, tag: Tag, original: string)

  /** The options `process_tokens` reads; the others do not affect it. */
  datatype Options = Options(preserveFormatting: bool, caseSensitive: bool)

  // ---------------------------------------------------------------------
  // Case.

  /** The case rule: upper case for an upper-case token, capitalized for a title-case one, lower case otherwise. */
  function CaseRule(original: string, t: string): string
  {
    if IsUpper(original) then Upper(t) else if IsTitle(original) then Capitalize(t) else Lower(t)
  }

  /** The case rule, applied unless the options ask for case-sensitive output. */
  function Adjust(original: string, t: string, cs: bool): string
  {
    if cs then t else CaseRule(original, t)
  }

  /** For a fixed token, applying the case rule a second time changes nothing. */
  lemma AdjustIdempotent(original: string, t: string, cs: bool)
    ensures Adjust(original, Adjust(original, t, cs), cs) == Adjust(original, t, cs)
  {
    CaseMappingsIdempotent(t);
  }

  // ---------------------------------------------------------------------
  // Scans of the dictionary in load order.

  /** The first entry from `j` on whose lower-cased value is `target`. */
  function FirstValueFrom(d: Dict, target: string, j: nat): (r: Option<nat>)
    ensures r.None? <==> forall i :: j <= i < |d| ==> Lower(d[i].value) != target
    ensures r.Some? ==>
      && j <= r.value < |d| && Lower(d[r.value].value) == target
      && forall i :: j <= i < r.value ==> Lower(d[i].value) != target
    decreases |d| - j
  {
    if j >= |d| then None
    else if Lower(d[j].value) == target then Some(j)
    else FirstValueFrom(d, target, j + 1)
  }

  function FirstValue(d: Dict, target: string): Option<nat>
  {
    FirstValueFrom(d, target, 0)
  }

  /** The loop `for indo_word, dayak_word in DICTIONARY.items(): if target == dayak_word.lower(): ... break`. */
  method FindValue(d: Dict, target: string) returns (r: Option<nat>)
    ensures r == FirstValue(d, target)
  {
    for j := 0 to |d|
      invariant FirstValueFrom(d, target, j) == FirstValue(d, target)
    {
      if Lower(d[j].value) == target {
        return Some(j);
      }
    }
    return None;
  }

  // ---------------------------------------------------------------------
  // Indonesian to Dayak Kenyah.

  /** The fuzzy fallback over the keys: the translation of the best key, looked up lower-cased. */
  function IdLight(token: string, d: Dict, preserveFormatting: bool): Option<string>
  {
    var best := FuzzyScan(token, Keys(d), |d|);
    if preserveFormatting && best.Some? && d[best.value].key != [] then Some(KeyTranslation(d, best.value, token))
    else None
  }

  /** The translation of the key of `d[j]` looked up lower-cased, and `token` when that is not a key. */
  function KeyTranslation(d: Dict, j: nat, token: string): string
    requires j < |d|
  {
    Lookup(d, Lower(d[j].key)).GetOr(token)
  }

  /**
   * What the Indonesian branch may give for a word token: its lower-cased
   * form's entry; else the entry of any analysed form that is a key (the
   * forms come from a set, so which one is not fixed); else the fuzzy
   * match; else the token itself, unmatched. The translation then follows
   * the token's case.
   */
  ghost predicate IdWord(token: string, d: Dict, opts: Options, r: TokenResult)
  {
    var cs := opts.caseSensitive;
    r.original == token &&
    if HasKey(d, Lower(token)) then
      r.tag == Exact && r.translation == Adjust(token, Lookup(d, Lower(token)).value, cs)
    else if exists f :: f in MorphForms(token) && HasKey(d, f) then
      r.tag == Morphological
      && exists f :: f in MorphForms(token) && HasKey(d, f) && r.translation == Adjust(token, Lookup(d, f).value, cs)
    else
      match IdLight(token, d, opts.preserveFormatting)
      case Some(t) => r.tag == Lightweight && r.translation == Adjust(token, t, cs)
      case None => r.tag == NoMatch && r.translation == Adjust(token, token, cs)
  }

  /** The Indonesian branch for one word token. */
  method TranslateIdWord(token: string, d: Dict, opts: Options) returns (r: TokenResult)
    ensures IdWord(token, d, opts, r)
  {
    var wordLower := Lower(token);
    var translatedWord := token;
    var matchType := NoMatch;
    var exact := Lookup(d, wordLower);
    if exact.Some? {
      translatedWord, matchType := exact.value, Exact;
    } else {
      var possibleForms := AnalyzeMorphology(token);
      if form :| form in possibleForms && HasKey(d, form) {
        translatedWord, matchType := Lookup(d, form).value, Morphological;
      }
      if matchType == NoMatch && opts.preserveFormatting {
        var bestMatch, bestSimilarity := FuzzySearch(token, Keys(d));
        if bestMatch.Some? && d[bestMatch.value].key != [] {
          translatedWord := Lookup(d, Lower(d[bestMatch.value].key)).GetOr(translatedWord);
          matchType := Lightweight;
        }
      }
    }
    translatedWord := ApplyCase(token, translatedWord, opts.caseSensitive);
    r := TokenResult(translatedWord, matchType, token);
  }

  /** The case-preservation block of `process_tokens`. */
  method ApplyCase(original: string, t: string, cs: bool) returns (adjusted: string)
    ensures adjusted == Adjust(original, t, cs)
  {
    adjusted := t;
    if !cs {
      if IsUpper(original) {
        adjusted := Upper(t);
      } else if IsTitle(original) {
        adjusted := Capitalize(t);
      } else {
        adjusted := Lower(t);
      }
    }
  }

  /** What the Indonesian branch may give for any token: non-word tokens pass through as "none". */
  ghost predicate IdResult(token: string, d: Dict, opts: Options, r: TokenResult)
  {
    if IsWordToken(token) then IdWord(token, d, opts, r) else r == TokenResult(token, NoMatch, token)
  }

  ghost predicate IdResults(tokens: seq<string>, d: Dict, opts: Options, rs: seq<TokenResult>)
  {
    |rs| == |tokens| && forall k :: 0 <= k < |tokens| ==> IdResult(tokens[k], d, opts, rs[k])
  }

  // ---------------------------------------------------------------------
  // Dayak Kenyah to Indonesian.

  /** A matched window: its length, and the entry whose lower-cased value it spells. */
  datatype Window = Window(n: nat, entry: nat)

  /** The window of `n` tokens at `i` consists of word tokens and spells, lower-cased, some entry's lower-cased value. */
  predicate Spells(tokens: seq<string>, d: Dict, i: nat, n: nat)
  {
    i + n <= |tokens| && AllWords(tokens[i..i + n]) && FirstValue(d, PhraseKey(tokens[i..i + n])).Some?
  }

  /** The window loop from length `n` down to 1: the first window of word tokens that spells a value. */
  function WindowFrom(tokens: seq<string>, d: Dict, i: nat, n: nat): (r: Option<Window>)
    ensures r.Some? ==> 1 <= r.value.n <= n && i + r.value.n <= |tokens| && r.value.entry < |d|
    decreases n
  {
    if n == 0 then None
    else if Spells(tokens, d, i, n) then
      Some(Window(n, FirstValue(d, PhraseKey(tokens[i..i + n])).value))
    else WindowFrom(tokens, d, i, n - 1)
  }

  /** The results of a matched window: the entry's key for its first token, "" for the others, all tagged with the length. */
  function WindowEntries(tokens: seq<string>, d: Dict, cs: bool, i: nat, w: Window): (rs: seq<TokenResult>)
    requires 1 <= w.n && i + w.n <= |tokens| && w.entry < |d|
    ensures |rs| == w.n
  {
    [TokenResult(Adjust(tokens[i], d[w.entry].key, cs), Gram(w.n), tokens[i])]
      + seq(w.n - 1, k requires 0 <= k < w.n - 1 => TokenResult("", Gram(w.n), tokens[i + 1 + k]))
  }

  /** The single-word lookup: a raw value equal to the lower-cased token, then the first such key. */
  function DykExact(token: string, d: Dict): Option<string>
  {
    if Lower(token) in Values(d) then
      match FirstValue(d, Lower(token))
      case Some(j) => Some(d[j].key)
      case None => None
    else None
  }

  /** The key, as stored, of the first entry whose lower-cased value equals `Lower(d[j].value)`; `token` when there is none (never, by ValueTranslationIsFirstKey). */
  function ValueTranslation(d: Dict, j: nat, token: string): string
    requires j < |d|
  {
    match FirstValue(d, Lower(d[j].value))
    case Some(k) => d[k].key
    case None => token
  }

  /** The fuzzy fallback over the values: the first key whose value matches the best value. */
  function DykLight(token: string, d: Dict, preserveFormatting: bool): Option<string>
  {
    var best := FuzzyScan(token, Values(d), |d|);
    if preserveFormatting && best.Some? && d[best.value].value != [] then Some(ValueTranslation(d, best.value, token))
    else None
  }

  /** The Dayak Kenyah branch for a word token that starts no window. */
  function DykSingle(token: string, d: Dict, opts: Options): TokenResult
  {
    var cs := opts.caseSensitive;
    match DykExact(token, d)
    case Some(t) => TokenResult(Adjust(token, t, cs), Exact, token)
    case None =>
      match DykLight(token, d, opts.preserveFormatting)
      case Some(t) => TokenResult(Adjust(token, t, cs), Lightweight, token)
      case None => TokenResult(Adjust(token, token, cs), NoMatch, token)
  }

  function DykCascade(d: Dict, opts: Options): string -> TokenResult
  {
    token => DykSingle(token, d, opts)
  }

  datatype Step = Step(out: seq<TokenResult>, next: nat)

  /** One pass of the Dayak Kenyah branch at `tokens[i]`, for a single-word step `single`. */
  function DykStep(tokens: seq<string>, d: Dict, single: string -> TokenResult, cs: bool, i: nat): (s: Step)
    requires i < |tokens|
    ensures i < s.next <= |tokens|
  {
    var token := tokens[i];
    if !IsWordToken(token) then Step([TokenResult(token, NoMatch, token)], i + 1)
    else
      match WindowFrom(tokens, d, i, 3)
      case Some(w) => Step(WindowEntries(tokens, d, cs, i, w), i + w.n)
      case None => Step([single(token)], i + 1)
  }

  /** The results of the Dayak Kenyah branch for `tokens[i..]`. */
  function DykFrom(tokens: seq<string>, d: Dict, single: string -> TokenResult, cs: bool, i: nat): seq<TokenResult>
    requires i <= |tokens|
    decreases |tokens| - i
  {
    if i == |tokens| then []
    else
      var s := DykStep(tokens, d, single, cs, i);
      s.out + DykFrom(tokens, d, single, cs, s.next)
  }

  /** The results of the Dayak Kenyah branch, with the source's single-word step. */
  function DykResults(tokens: seq<string>, d: Dict, opts: Options): seq<TokenResult>
  {
    DykFrom(tokens, d, DykCascade(d, opts), opts.caseSensitive, 0)
  }

  /** `process_tokens(tokens, source_lang, target_lang, options)` */
  method ProcessTokens(tokens: seq<string>, sourceLang: string, d: Dict, opts: Options) returns (results: seq<TokenResult>)
    ensures sourceLang == "id" ==> IdResults(tokens, d, opts, results)
    ensures sourceLang != "id" ==> results == DykResults(tokens, d, opts)
  {
    results := [];
    var i := 0;
    while i < |tokens|
      invariant i <= |tokens| && Scanned(tokens, sourceLang, d, opts, i, results)
      decreases |tokens| - i
    {
      var token := tokens[i];
      if !IsWordToken(token) {
        ScanExtends(tokens, sourceLang, d, opts, i, results, [TokenResult(token, NoMatch, token)], i + 1);
        results := results + [TokenResult(token, NoMatch, token)];
        i := i + 1;
        continue;
      }
      if sourceLang == "id" {
        var r := TranslateIdWord(token, d, opts);
        ScanExtends(tokens, sourceLang, d, opts, i, results, [r], i + 1);
        results := results + [r];
        i := i + 1;
      } else {
        var out, next := DykWord(tokens, d, opts, i);
        ScanExtends(tokens, sourceLang, d, opts, i, results, out, next);
        results := results + out;
        i := next;
      }
    }
  }

  /** The loop invariant of `process_tokens`: the results so far are those of `tokens[..i]`. */
  ghost predicate Scanned(tokens: seq<string>, sourceLang: string, d: Dict, opts: Options, i: nat, results: seq<TokenResult>)
    requires i <= |tokens|
  {
    if sourceLang == "id" then |results| == i && forall k :: 0 <= k < i ==> IdResult(tokens[k], d, opts, results[k])
    else results + DykFrom(tokens, d, DykCascade(d, opts), opts.caseSensitive, i) == DykResults(tokens, d, opts)
  }

  lemma ScanExtends(tokens: seq<string>, sourceLang: string, d: Dict, opts: Options,
                    i: nat, results: seq<TokenResult>, out: seq<TokenResult>, next: nat)
    requires i < |tokens| && Scanned(tokens, sourceLang, d, opts, i, results)
    requires sourceLang == "id" ==> next == i + 1 && |out| == 1 && IdResult(tokens[i], d, opts, out[0])
    requires sourceLang != "id" ==> Step(out, next) == DykStep(tokens, d, DykCascade(d, opts), opts.caseSensitive, i)
    ensures i < next <= |tokens| && Scanned(tokens, sourceLang, d, opts, next, results + out)
  {
    if sourceLang == "id" {
      IdExtends(tokens, d, opts, i, results, out);
    } else {
      DykExtends(tokens, d, DykCascade(d, opts), opts.caseSensitive, i, results, out, next);
    }
  }

  lemma IdExtends(tokens: seq<string>, d: Dict, opts: Options, i: nat, results: seq<TokenResult>, out: seq<TokenResult>)
    requires i < |tokens| && |results| == i && forall k :: 0 <= k < i ==> IdResult(tokens[k], d, opts, results[k])
    requires |out| == 1 && IdResult(tokens[i], d, opts, out[0])
    ensures forall k :: 0 <= k < i + 1 ==> IdResult(tokens[k], d, opts, (results + out)[k])
  {
  }

  lemma DykExtends(tokens: seq<string>, d: Dict, single: string -> TokenResult, cs: bool, i: nat,
                   results: seq<TokenResult>, out: seq<TokenResult>, next: nat)
    requires i < |tokens| && results + DykFrom(tokens, d, single, cs, i) == DykFrom(tokens, d, single, cs, 0)
    requires Step(out, next) == DykStep(tokens, d, single, cs, i)
    ensures i < next <= |tokens| && (results + out) + DykFrom(tokens, d, single, cs, next) == DykFrom(tokens, d, single, cs, 0)
  {
    var rest := DykFrom(tokens, d, single, cs, next);
    assert DykFrom(tokens, d, single, cs, i) == out + rest;
    assert (results + out) + rest == results + (out + rest);
  }

  /** The Dayak Kenyah branch at a word token: a window of up to three tokens, else the single word. */
  method DykWord(tokens: seq<string>, d: Dict, opts: Options, i: nat) returns (out: seq<TokenResult>, next: nat)
    requires i < |tokens| && IsWordToken(tokens[i])
    ensures Step(out, next) == DykStep(tokens, d, DykCascade(d, opts), opts.caseSensitive, i)
  {
    var w := FindWindow(tokens, d, i);
    if w.Some? {
      out := EmitWindow(tokens, d, opts.caseSensitive, i, w.value);
      next := i + w.value.n;
    } else {
      var r := TranslateDykSingle(tokens[i], d, opts);
      out, next := [r], i + 1;
    }
  }

  /** `for n in range(3, 0, -1)`: the first window that spells a value. */
  method FindWindow(tokens: seq<string>, d: Dict, i: nat) returns (w: Option<Window>)
    ensures w == WindowFrom(tokens, d, i, 3)
  {
    var n := 3;
    while n > 0
      invariant WindowFrom(tokens, d, i, n) == WindowFrom(tokens, d, i, 3)
    {
      if i + n <= |tokens| {
        var phraseTokens := tokens[i..i + n];
        if AllWords(phraseTokens) {
          var phrase := PhraseKey(phraseTokens);
          var entry := FindValue(d, phrase);
          if entry.Some? {
            return Some(Window(n, entry.value));
          }
        }
      }
      n := n - 1;
    }
    return None;
  }

  /** The results appended for a matched window. */
  method EmitWindow(tokens: seq<string>, d: Dict, cs: bool, i: nat, w: Window) returns (entries: seq<TokenResult>)
    requires 1 <= w.n && i + w.n <= |tokens| && w.entry < |d|
    ensures entries == WindowEntries(tokens, d, cs, i, w)
  {
    var first := ApplyCase(tokens[i], d[w.entry].key, cs);
    entries := [TokenResult(first, Gram(w.n), tokens[i])];
    for k := 1 to w.n
      invariant |entries| == k
      invariant entries[0] == WindowEntries(tokens, d, cs, i, w)[0]
      invariant forall j :: 1 <= j < k ==> entries[j] == TokenResult("", Gram(w.n), tokens[i + j])
    {
      entries := entries + [TokenResult("", Gram(w.n), tokens[i + k])];
    }
    assert entries == WindowEntries(tokens, d, cs, i, w);
  }

  /** The single-word part of the Dayak Kenyah branch. */
  method TranslateDykSingle(token: string, d: Dict, opts: Options) returns (r: TokenResult)
    ensures r == DykSingle(token, d, opts)
  {
    var wordLower := Lower(token);
    var translatedWord := token;
    var matchType := NoMatch;
    var singleWordTranslated := false;
    if wordLower in Values(d) {
      var entry := FindValue(d, wordLower);
      if entry.Some? {
        translatedWord, matchType, singleWordTranslated := d[entry.value].key, Exact, true;
      }
    }
    if !singleWordTranslated && opts.preserveFormatting {
      var bestMatch, bestSimilarity := FuzzySearch(token, Values(d));
      if bestMatch.Some? && d[bestMatch.value].value != [] {
        var entry := FindValue(d, Lower(d[bestMatch.value].value));
        if entry.Some? {
          translatedWord := d[entry.value].key;
        }
        matchType := Lightweight;
      }
    }
    translatedWord := ApplyCase(token, translatedWord, opts.caseSensitive);
    r := TokenResult(translatedWord, matchType, token);
  }

  // ---------------------------------------------------------------------
  // Properties.

  /** Each result stands for its token, and a non-word token passes through unmatched. */
  predicate ResultFor(tokens: seq<string>, k: nat, r: TokenResult)
    requires k < |tokens|
  {
    && r.original == tokens[k]
    && (!IsWordToken(tokens[k]) ==> r == TokenResult(tokens[k], NoMatch, tokens[k]))
  }

  /** The Indonesian branch gives one result per token, in order. */
  lemma IdOnePerToken(tokens: seq<string>, d: Dict, opts: Options, rs: seq<TokenResult>)
    requires IdResults(tokens, d, opts, rs)
    ensures |rs| == |tokens|
    ensures forall k :: 0 <= k < |tokens| ==> ResultFor(tokens, k, rs[k]) && !rs[k].tag.Gram? && Cased(rs[k], opts.caseSensitive)
  {
    forall k | 0 <= k < |tokens| ensures ResultFor(tokens, k, rs[k]) && !rs[k].tag.Gram? && Cased(rs[k], opts.caseSensitive) {
      assert IdResult(tokens[k], d, opts, rs[k]);
      if IsWordToken(tokens[k]) {
        IdWordFacts(tokens[k], d, opts, rs[k]);
      }
    }
  }

  /**
   * The Indonesian match types: "exact" exactly when the lower-cased word is
   * a key; "morphological" only through an analysed form that is a key;
   * "lightweight" and "none" only when neither the word nor any analysed
   * form is a key, and "lightweight" only when enabled.
   */
  lemma IdWordFacts(token: string, d: Dict, opts: Options, r: TokenResult)
    requires IdWord(token, d, opts, r)
    ensures r.tag == Exact <==> HasKey(d, Lower(token))
    ensures r.tag == Morphological ==>
      && !HasKey(d, Lower(token))
      && exists f :: f in MorphForms(token) && HasKey(d, f) && r.translation == Adjust(token, Lookup(d, f).value, opts.caseSensitive)
    ensures r.tag == Lightweight ==>
      && opts.preserveFormatting
      && (forall f :: f in MorphForms(token) ==> !HasKey(d, f))
      && IdLight(token, d, true).Some?
      && r.translation == Adjust(token, IdLight(token, d, true).value, opts.caseSensitive)
    ensures r.tag == NoMatch ==>
      && (forall f :: f in MorphForms(token) ==> !HasKey(d, f))
      && r.translation == Adjust(token, token, opts.caseSensitive)
    ensures !r.tag.Gram?
    ensures Cased(r, opts.caseSensitive)
  {
    var cs := opts.caseSensitive;
    if HasKey(d, Lower(token)) {
      AdjustIdempotent(token, Lookup(d, Lower(token)).value, cs);
    } else if exists f :: f in MorphForms(token) && HasKey(d, f) {
      var f :| f in MorphForms(token) && HasKey(d, f) && r.translation == Adjust(token, Lookup(d, f).value, cs);
      AdjustIdempotent(token, Lookup(d, f).value, cs);
    } else {
      match IdLight(token, d, opts.preserveFormatting)
      case Some(t) => AdjustIdempotent(token, t, cs);
      case None => AdjustIdempotent(token, token, cs);
    }
  }

  /**
   * The fuzzy fallback takes, among the keys, the earliest one of highest
   * similarity above the threshold, and gives that key's translation.
   */
  lemma IdLightPicksBest(token: string, d: Dict, t: string)
    requires IdLight(token, d, true) == Some(t)
    ensures exists j :: 0 <= j < |d| && d[j].key != [] && BestKey(token, d, j) && t == KeyTranslation(d, j, token)
  {
    var j := FuzzyScan(token, Keys(d), |d|).value;
    FuzzyScanPicksEarliestBest(token, Keys(d));
    assert BestKey(token, d, j);
  }

  /**
   * `d[j].key` is above the threshold, no key is more similar to `token`,
   * and no earlier key is as similar (`Similarities(token, Keys(d))[i]` is
   * the similarity of `token` and `d[i].key`).
   */
  predicate BestKey(token: string, d: Dict, j: nat)
    requires j < |d|
  {
    var scores := Similarities(token, Keys(d));
    && scores[j] > FuzzyThreshold
    && (forall i :: 0 <= i < |d| ==> scores[i] <= scores[j])
    && (forall i :: 0 <= i < j ==> scores[i] < scores[j])
  }

  /**
   * The fuzzy fallback of the Dayak Kenyah branch takes, among the values,
   * the earliest one of highest similarity above the threshold, and gives
   * the key of the first entry, in load order, with that value up to case.
   */
  lemma DykLightPicksBest(token: string, d: Dict, t: string)
    requires DykLight(token, d, true) == Some(t)
    ensures exists j :: 0 <= j < |d| && d[j].value != [] && BestValue(token, d, j) && t == ValueTranslation(d, j, token)
  {
    var j := FuzzyScan(token, Values(d), |d|).value;
    FuzzyScanPicksEarliestBest(token, Values(d));
    assert BestValue(token, d, j);
  }

  /**
   * `d[j].value` is above the threshold, no value is more similar to
   * `token`, and no earlier value is as similar.
   */
  predicate BestValue(token: string, d: Dict, j: nat)
    requires j < |d|
  {
    var scores := Similarities(token, Values(d));
    && scores[j] > FuzzyThreshold
    && (forall i :: 0 <= i < |d| ==> scores[i] <= scores[j])
    && (forall i :: 0 <= i < j ==> scores[i] < scores[j])
  }

  /**
   * Back-translation of an entry's value yields the key of the first entry,
   * in load order, with the same value up to case; never the token itself.
   */
  lemma ValueTranslationIsFirstKey(d: Dict, j: nat, token: string)
    requires j < |d|
    ensures exists e ::
      && 0 <= e <= j && ValueTranslation(d, j, token) == d[e].key
      && Lower(d[e].value) == Lower(d[j].value)
      && forall i :: 0 <= i < e ==> Lower(d[i].value) != Lower(d[j].value)
  {
    var e := FirstValue(d, Lower(d[j].value));
    assert e.Some?;
  }

  /** The tags the Dayak Kenyah branch gives: "none", "lightweight" or a window of 1 to 3 tokens, and only 1 without adjacent words. */
  predicate DykTag(t: Tag, oneToken: bool)
  {
    && (t == NoMatch || t == Lightweight || (t.Gram? && 1 <= t.n <= 3))
    && (oneToken && t.Gram? ==> t.n == 1)
  }

  /** A word token's translation already follows the token's case, so the case rule leaves it as it is. */
  predicate Cased(r: TokenResult, cs: bool)
  {
    IsWordToken(r.original) ==> Adjust(r.original, r.translation, cs) == r.translation
  }

  predicate DykResultFor(tokens: seq<string>, k: nat, r: TokenResult, cs: bool)
    requires k < |tokens|
  {
    ResultFor(tokens, k, r) && DykTag(r.tag, NoAdjacentWords(tokens)) && Cased(r, cs)
  }

  /**
   * A matched window is the longest window of word tokens, of at most `n`,
   * that spells a lower-cased value, and its entry is the first such entry
   * in load order.
   */
  lemma {:induction false} WindowFromFound(tokens: seq<string>, d: Dict, i: nat, n: nat)
    ensures WindowFrom(tokens, d, i, n).Some? ==>
      var w := WindowFrom(tokens, d, i, n).value;
      && AllWords(tokens[i..i + w.n])
      && Lower(d[w.entry].value) == PhraseKey(tokens[i..i + w.n])
      && (forall e :: 0 <= e < w.entry ==> Lower(d[e].value) != PhraseKey(tokens[i..i + w.n]))
      && (forall m :: w.n < m <= n ==> !Spells(tokens, d, i, m))
    decreases n
  {
    if n > 0 {
      WindowFromFound(tokens, d, i, n - 1);
    }
  }

  /** A word token that starts no window of up to `n` tokens has no lower-cased value equal to its own lower-cased form. */
  lemma {:induction false} WindowMissNoValue(tokens: seq<string>, d: Dict, i: nat, n: nat)
    requires i < |tokens| && IsWordToken(tokens[i]) && 1 <= n && WindowFrom(tokens, d, i, n).None?
    ensures FirstValue(d, Lower(tokens[i])).None?
    decreases n
  {
    if n == 1 {
      assert tokens[i..i + 1] == [tokens[i]];
      assert LowerAll([tokens[i]]) == [Lower(tokens[i])];
    } else {
      WindowMissNoValue(tokens, d, i, n - 1);
    }
  }

  /** With no two word tokens next to each other, a window has one token. */
  lemma {:induction false} OnlyOneTokenWindows(tokens: seq<string>, d: Dict, i: nat, n: nat)
    requires NoAdjacentWords(tokens)
    ensures WindowFrom(tokens, d, i, n).Some? ==> WindowFrom(tokens, d, i, n).value.n == 1
    decreases n
  {
    if n >= 2 {
      if i + n <= |tokens| {
        LongWindowsNeverAllWords(tokens, i, n);
      }
      OnlyOneTokenWindows(tokens, d, i, n - 1);
    }
  }

  /** A single-word step fit for the tokens that start no window: it keeps the token and answers only "none" or "lightweight". */
  ghost predicate SingleAfterMiss(tokens: seq<string>, d: Dict, single: string -> TokenResult, cs: bool)
  {
    forall j :: 0 <= j < |tokens| && IsWordToken(tokens[j]) && WindowFrom(tokens, d, j, 3).None? ==>
      && single(tokens[j]).original == tokens[j]
      && (single(tokens[j]).tag == NoMatch || single(tokens[j]).tag == Lightweight)
      && Cased(single(tokens[j]), cs)
  }

  /**
   * The single-word "exact" lookup is reached only after the one-token
   * window failed, and that window tries the same values, so it never
   * succeeds.
   */
  lemma CascadeAfterMiss(tokens: seq<string>, d: Dict, opts: Options)
    ensures SingleAfterMiss(tokens, d, DykCascade(d, opts), opts.caseSensitive)
  {
    forall j | 0 <= j < |tokens| && IsWordToken(tokens[j]) && WindowFrom(tokens, d, j, 3).None?
      ensures DykExact(tokens[j], d).None? && Cased(DykSingle(tokens[j], d, opts), opts.caseSensitive)
    {
      WindowMissNoValue(tokens, d, j, 3);
      CaseMappingsIdempotent(tokens[j]);
      ValueHasFirst(d, Lower(tokens[j]));
      DykSingleCased(tokens[j], d, opts);
    }
  }

  lemma DykSingleCased(token: string, d: Dict, opts: Options)
    ensures Cased(DykSingle(token, d, opts), opts.caseSensitive)
  {
    var cs := opts.caseSensitive;
    match DykExact(token, d)
    case Some(t) => AdjustIdempotent(token, t, cs);
    case None =>
      match DykLight(token, d, opts.preserveFormatting)
      case Some(t) => AdjustIdempotent(token, t, cs);
      case None => AdjustIdempotent(token, token, cs);
  }

  /** A lower-case value of the dictionary is found by the value scan. */
  lemma ValueHasFirst(d: Dict, t: string)
    ensures t in Values(d) && Lower(t) == t ==> FirstValue(d, t).Some?
  {
    if t in Values(d) && Lower(t) == t {
      var e :| 0 <= e < |d| && Values(d)[e] == t;
      assert Lower(d[e].value) == t;
    }
  }

  /** `rs` are results for `tokens[i..i + |rs|]`, as the Dayak Kenyah branch gives them. */
  predicate AllFor(tokens: seq<string>, i: nat, rs: seq<TokenResult>, cs: bool)
  {
    i + |rs| <= |tokens| && forall k :: 0 <= k < |rs| ==> DykResultFor(tokens, i + k, rs[k], cs)
  }

  lemma WindowEntriesFor(tokens: seq<string>, d: Dict, cs: bool, i: nat)
    requires i < |tokens| && WindowFrom(tokens, d, i, 3).Some?
    ensures AllFor(tokens, i, WindowEntries(tokens, d, cs, i, WindowFrom(tokens, d, i, 3).value), cs)
  {
    var w := WindowFrom(tokens, d, i, 3).value;
    var rs := WindowEntries(tokens, d, cs, i, w);
    WindowFromFound(tokens, d, i, 3);
    if NoAdjacentWords(tokens) {
      OnlyOneTokenWindows(tokens, d, i, 3);
    }
    AdjustIdempotent(tokens[i], d[w.entry].key, cs);
    forall k | 0 <= k < w.n ensures DykResultFor(tokens, i + k, rs[k], cs) {
      assert tokens[i..i + w.n][k] == tokens[i + k];
      if k > 0 {
        assert rs[k] == TokenResult("", Gram(w.n), tokens[i + k]);
        assert Lower("") == "" && Upper("") == "";
      }
    }
  }

  lemma DykStepFacts(tokens: seq<string>, d: Dict, single: string -> TokenResult, cs: bool, i: nat)
    requires i < |tokens| && SingleAfterMiss(tokens, d, single, cs)
    ensures |DykStep(tokens, d, single, cs, i).out| == DykStep(tokens, d, single, cs, i).next - i
    ensures AllFor(tokens, i, DykStep(tokens, d, single, cs, i).out, cs)
  {
    if IsWordToken(tokens[i]) && WindowFrom(tokens, d, i, 3).Some? {
      WindowEntriesFor(tokens, d, cs, i);
    }
  }

  /** Results for `tokens[i..j]` followed by results for `tokens[j..]` are results for `tokens[i..]`. */
  lemma ResultsJoin(tokens: seq<string>, i: nat, out: seq<TokenResult>, rest: seq<TokenResult>, cs: bool)
    requires AllFor(tokens, i, out, cs) && AllFor(tokens, i + |out|, rest, cs)
    ensures AllFor(tokens, i, out + rest, cs)
  {
    forall k | 0 <= k < |out + rest| ensures DykResultFor(tokens, i + k, (out + rest)[k], cs) {
      if k < |out| {
        assert (out + rest)[k] == out[k];
      } else {
        assert (out + rest)[k] == rest[k - |out|];
      }
    }
  }

  lemma {:induction false} DykFromFacts(tokens: seq<string>, d: Dict, single: string -> TokenResult, cs: bool, i: nat)
    requires i <= |tokens| && SingleAfterMiss(tokens, d, single, cs)
    ensures |DykFrom(tokens, d, single, cs, i)| == |tokens| - i
    ensures AllFor(tokens, i, DykFrom(tokens, d, single, cs, i), cs)
    decreases |tokens| - i
  {
    if i < |tokens| {
      var s := DykStep(tokens, d, single, cs, i);
      var rest := DykFrom(tokens, d, single, cs, s.next);
      DykStepFacts(tokens, d, single, cs, i);
      DykFromFacts(tokens, d, single, cs, s.next);
      assert DykFrom(tokens, d, single, cs, i) == s.out + rest;
      ResultsJoin(tokens, i, s.out, rest, cs);
    }
  }

  /**
   * The Dayak Kenyah branch gives one result per token, in order, and never
   * an "exact" or "morphological" tag; without adjacent word tokens (as the
   * tokenizer produces them), every window has a single token.
   */
  lemma DykOnePerToken(tokens: seq<string>, d: Dict, opts: Options)
    ensures var rs := DykResults(tokens, d, opts);
      |rs| == |tokens| && forall k :: 0 <= k < |tokens| ==> DykResultFor(tokens, k, rs[k], opts.caseSensitive)
  {
    CascadeAfterMiss(tokens, d, opts);
    DykFromFacts(tokens, d, DykCascade(d, opts), opts.caseSensitive, 0);
    var rs := DykResults(tokens, d, opts);
    forall k | 0 <= k < |tokens| ensures DykResultFor(tokens, k, rs[k], opts.caseSensitive) {
      assert DykResultFor(tokens, 0 + k, rs[k], opts.caseSensitive);
    }
  }

  /**
   * A window's first token takes the key of the first entry, in load order,
   * whose lower-cased value the window spells, in the token's case; the
   * other tokens of the window take "".
   */
  lemma WindowTakesFirstKey(tokens: seq<string>, d: Dict, cs: bool, i: nat)
    requires i < |tokens| && WindowFrom(tokens, d, i, 3).Some?
    ensures var w := WindowFrom(tokens, d, i, 3).value;
      var rs := WindowEntries(tokens, d, cs, i, w);
      && rs[0].translation == Adjust(tokens[i], d[w.entry].key, cs)
      && Lower(d[w.entry].value) == PhraseKey(tokens[i..i + w.n])
      && (forall e :: 0 <= e < w.entry ==> Lower(d[e].value) != PhraseKey(tokens[i..i + w.n]))
      && (forall k :: 1 <= k < w.n ==> rs[k].translation == "")
  {
    WindowFromFound(tokens, d, i, 3);
  }
}
