/**
 * `process_tokens` of vercel-deployment/api/translate.py: one result per
 * token, with 3/2/1-token phrase windows and the single-word cascade for
 * Indonesian input, and the reverse index for Dayak Kenyah input.
 */
module VercelScanner {
  import opened Wrappers
  import opened Text
  import opened Tokens
  import opened Dictionary
  import opened VercelTags
  import opened VercelSingleWord

  /** `(translated_word, match_type, original_word)` */
  datatype TokenResult = TokenResult(translation: string, tag: Tag, original: string)

  /**
   * Case preservation: an upper-case token gets an upper-case translation,
   * a title-case one a capitalised translation; nothing when case-sensitive.
   */
  function CaseAdjust(original: string, translation: string, caseSensitive: bool): string
  {
    if caseSensitive then translation
    else if IsUpper(original) then Upper(translation)
    else if IsTitle(original) then Capitalize(translation)
    else translation
  }

  /** The window `tokens[i..i + n]` consists of word tokens and its key is in the dictionary. */
  predicate PhraseMatches(tokens: seq<string>, d: Dict, i: nat, n: nat)
    requires i + n <= |tokens|
  {
    AllWords(tokens[i..i + n]) && HasKey(d, PhraseKey(tokens[i..i + n]))
  }

  /** The largest window the scan tries at `i`: `min(3, len(tokens) - i)`. */
  function Lookahead(tokens: seq<string>, i: nat): (n: nat)
    requires i <= |tokens|
    ensures n <= 3 && i + n <= |tokens|
  {
    if |tokens| - i < 3 then |tokens| - i else 3
  }

  /** The window search from length `n` down to 1. */
  function PhraseLen(tokens: seq<string>, d: Dict, i: nat, n: nat): (r: Option<nat>)
    requires i + n <= |tokens|
    ensures r.Some? ==> 1 <= r.value <= n
    decreases n
  {
    if n == 0 then None
    else if PhraseMatches(tokens, d, i, n) then Some(n)
    else PhraseLen(tokens, d, i, n - 1)
  }

  /** The window search finds the longest window of at most `n` tokens that matches, if any does. */
  lemma PhraseLenIsLongest(tokens: seq<string>, d: Dict, i: nat, n: nat)
    requires i + n <= |tokens|
    ensures PhraseLen(tokens, d, i, n).None? <==> forall m :: 1 <= m <= n ==> !PhraseMatches(tokens, d, i, m)
    ensures PhraseLen(tokens, d, i, n).Some? ==>
      var m := PhraseLen(tokens, d, i, n).value;
      PhraseMatches(tokens, d, i, m) && forall m' :: m < m' <= n ==> !PhraseMatches(tokens, d, i, m')
  {
    PhraseLenFound(tokens, d, i, n);
    PhraseLenMissed(tokens, d, i, n);
  }

  lemma {:induction false} PhraseLenFound(tokens: seq<string>, d: Dict, i: nat, n: nat)
    requires i + n <= |tokens|
    ensures PhraseLen(tokens, d, i, n).Some? ==> PhraseMatches(tokens, d, i, PhraseLen(tokens, d, i, n).value)
    decreases n
  {
    if n > 0 && !PhraseMatches(tokens, d, i, n) {
      PhraseLenFound(tokens, d, i, n - 1);
    }
  }

  /** Every window longer than the one found (all of them, when none is) fails to match. */
  lemma {:induction false} PhraseLenMissed(tokens: seq<string>, d: Dict, i: nat, n: nat)
    requires i + n <= |tokens|
    ensures forall m :: PhraseLen(tokens, d, i, n).GetOr(0) < m <= n ==> !PhraseMatches(tokens, d, i, m)
    decreases n
  {
    if n > 0 && !PhraseMatches(tokens, d, i, n) {
      PhraseLenMissed(tokens, d, i, n - 1);
    }
  }

  /** The translation of the one-word window at `i`, when the dictionary has it. */
  function PhraseTranslation(tokens: seq<string>, d: Dict, i: nat, n: nat): string
    requires i + n <= |tokens|
  {
    Lookup(d, PhraseKey(tokens[i..i + n])).GetOr("")
  }

  /** The results for a phrase of `n` tokens at `i`: the translation on the first, "" on the rest. */
  function PhraseEntries(tokens: seq<string>, d: Dict, cs: bool, i: nat, n: Pos): (rs: seq<TokenResult>)
    requires i + n <= |tokens|
    ensures |rs| == n
  {
    [TokenResult(CaseAdjust(tokens[i], PhraseTranslation(tokens, d, i, n), cs), Gram(n), tokens[i])]
      + seq(n - 1, k requires 0 <= k < n - 1 => TokenResult("", GramPart(n), tokens[i + 1 + k]))
  }

  lemma PhraseEntriesShape(tokens: seq<string>, d: Dict, cs: bool, i: nat, n: Pos)
    requires i + n <= |tokens|
    ensures var rs := PhraseEntries(tokens, d, cs, i, n);
      && (forall k :: 0 <= k < n ==> rs[k].original == tokens[i + k])
      && rs[0] == TokenResult(CaseAdjust(tokens[i], PhraseTranslation(tokens, d, i, n), cs), Gram(n), tokens[i])
      && (forall k :: 1 <= k < n ==> rs[k] == TokenResult("", GramPart(n), tokens[i + k]))
  {
  }

  /**
   * The single-word cascade over the dictionary `d`. The scan is stated for
   * any word translator `single`, and the program uses this one.
   */
  function Cascade(d: Dict): string -> WordResult
  {
    word => SingleWord(word, d)
  }

  /** The result for a word that starts no phrase: the single-word cascade, case-adjusted. */
  function WordEntry(token: string, single: string -> WordResult, cs: bool): TokenResult
  {
    var w := single(token);
    TokenResult(CaseAdjust(token, w.translation, cs), Scored(w.kind, w.confidence), token)
  }

  /** What one pass of the scan loop appends, and the index it continues from. */
  datatype Step = Step(out: seq<TokenResult>, next: nat)

  /** One pass of the Indonesian branch at `tokens[i]`. */
  function IdStep(tokens: seq<string>, d: Dict, single: string -> WordResult, cs: bool, i: nat): (s: Step)
    requires i < |tokens|
    ensures i < s.next <= |tokens|
  {
    var token := tokens[i];
    if !IsWordToken(token) then Step([TokenResult(token, Preserved, token)], i + 1)
    else
      match PhraseLen(tokens, d, i, Lookahead(tokens, i))
      case Some(n) => Step(PhraseEntries(tokens, d, cs, i, n), i + n)
      case None => Step([WordEntry(token, single, cs)], i + 1)
  }

  /** The results of the Indonesian branch for `tokens[i..]`. */
  function IdFrom(tokens: seq<string>, d: Dict, single: string -> WordResult, cs: bool, i: nat): seq<TokenResult>
    requires i <= |tokens|
    decreases |tokens| - i
  {
    if i == |tokens| then []
    else
      var s := IdStep(tokens, d, single, cs, i);
      s.out + IdFrom(tokens, d, single, cs, s.next)
  }

  /**
   * One result of the Dayak Kenyah branch: the token lower-cased is looked
   * up in the reverse index, and any one of its keys is taken.
   */
  predicate DykResult(token: string, rev: ReverseIndex, cs: bool, r: TokenResult)
  {
    if !IsWordToken(token) then r == TokenResult(token, Preserved, token)
    else if Lower(token) in rev then
      r.tag == Reverse && r.original == token
      && exists k :: k in rev[Lower(token)] && r.translation == CaseAdjust(token, k, cs)
    else r == TokenResult(CaseAdjust(token, token, cs), Unmatched, token)
  }

  predicate DykResults(tokens: seq<string>, rev: ReverseIndex, cs: bool, rs: seq<TokenResult>)
  {
    |rs| == |tokens| && forall k :: 0 <= k < |tokens| ==> DykResult(tokens[k], rev, cs, rs[k])
  }

  /** `process_tokens(tokens, source_lang, target_lang, case_sensitive)` */
  method ProcessTokens(tokens: seq<string>, sourceLang: string, cs: bool, d: Dict, rev: ReverseIndex)
    returns (results: seq<TokenResult>)
    requires IsReverseOf(rev, d)
    ensures sourceLang == "id" ==> results == IdFrom(tokens, d, Cascade(d), cs, 0)
    ensures sourceLang != "id" ==> DykResults(tokens, rev, cs, results)
  {
    results := [];
    var i := 0;
    while i < |tokens|
      invariant i <= |tokens| && Scanned(tokens, sourceLang, cs, d, rev, i, results)
      decreases |tokens| - i
    {
      var out, next := ScanAt(tokens, sourceLang, cs, d, rev, i);
      ScanExtends(tokens, sourceLang, cs, d, rev, i, results, out, next);
      results := results + out;
      i := next;
    }
  }

  /** The loop invariant of `process_tokens`: the results so far are those of `tokens[..i]`. */
  ghost predicate Scanned(tokens: seq<string>, sourceLang: string, cs: bool, d: Dict, rev: ReverseIndex,
                          i: nat, results: seq<TokenResult>)
    requires i <= |tokens|
  {
    if sourceLang == "id" then results + IdFrom(tokens, d, Cascade(d), cs, i) == IdFrom(tokens, d, Cascade(d), cs, 0)
    else |results| == i && forall k :: 0 <= k < i ==> DykResult(tokens[k], rev, cs, results[k])
  }

  lemma ScanExtends(tokens: seq<string>, sourceLang: string, cs: bool, d: Dict, rev: ReverseIndex,
                    i: nat, results: seq<TokenResult>, out: seq<TokenResult>, next: nat)
    requires i < |tokens| && Scanned(tokens, sourceLang, cs, d, rev, i, results)
    requires sourceLang == "id" ==> Step(out, next) == IdStep(tokens, d, Cascade(d), cs, i)
    requires sourceLang != "id" ==> next == i + 1 && |out| == 1 && DykResult(tokens[i], rev, cs, out[0])
    ensures i < next <= |tokens| && Scanned(tokens, sourceLang, cs, d, rev, next, results + out)
  {
    if sourceLang == "id" {
      IdExtends(tokens, d, Cascade(d), cs, i, results, out, next);
    } else {
      DykExtends(tokens, cs, rev, i, results, out);
    }
  }

  lemma IdExtends(tokens: seq<string>, d: Dict, single: string -> WordResult, cs: bool, i: nat, results: seq<TokenResult>, out: seq<TokenResult>, next: nat)
    requires i < |tokens| && results + IdFrom(tokens, d, single, cs, i) == IdFrom(tokens, d, single, cs, 0)
    requires Step(out, next) == IdStep(tokens, d, single, cs, i)
    ensures i < next <= |tokens| && (results + out) + IdFrom(tokens, d, single, cs, next) == IdFrom(tokens, d, single, cs, 0)
  {
    var rest := IdFrom(tokens, d, single, cs, next);
    assert IdFrom(tokens, d, single, cs, i) == out + rest;
    assert (results + out) + rest == results + (out + rest);
  }

  lemma DykExtends(tokens: seq<string>, cs: bool, rev: ReverseIndex, i: nat, results: seq<TokenResult>, out: seq<TokenResult>)
    requires i < |tokens| && |results| == i && forall k :: 0 <= k < i ==> DykResult(tokens[k], rev, cs, results[k])
    requires |out| == 1 && DykResult(tokens[i], rev, cs, out[0])
    ensures forall k :: 0 <= k < i + 1 ==> DykResult(tokens[k], rev, cs, (results + out)[k])
  {
  }

  /** One pass of the scan loop at `i`: the results it appends and the index it continues from. */
  method ScanAt(tokens: seq<string>, sourceLang: string, cs: bool, d: Dict, rev: ReverseIndex, i: nat)
    returns (out: seq<TokenResult>, next: nat)
    requires IsReverseOf(rev, d) && i < |tokens|
    ensures sourceLang == "id" ==> Step(out, next) == IdStep(tokens, d, Cascade(d), cs, i)
    ensures sourceLang != "id" ==> next == i + 1 && |out| == 1 && DykResult(tokens[i], rev, cs, out[0])
  {
    var token := tokens[i];
    if !IsWordToken(token) {
      return [TokenResult(token, Preserved, token)], i + 1;
    }
    if sourceLang == "id" {
      out, next := ScanWord(tokens, cs, d, i);
    } else {
      var r := ReverseToken(token, rev, cs, d);
      out, next := [r], i + 1;
    }
  }

  /** The Indonesian branch at a word token: a phrase of up to three tokens, else the single word. */
  method ScanWord(tokens: seq<string>, cs: bool, d: Dict, i: nat) returns (out: seq<TokenResult>, next: nat)
    requires i < |tokens| && IsWordToken(tokens[i])
    ensures Step(out, next) == IdStep(tokens, d, Cascade(d), cs, i)
  {
    var n := FindPhrase(tokens, d, i);
    if n.Some? {
      out := EmitPhrase(tokens, d, cs, i, n.value);
      next := i + n.value;
    } else {
      var token := tokens[i];
      var w := ProcessSingleWord(token, d);
      out := [TokenResult(CaseAdjust(token, w.translation, cs), Scored(w.kind, w.confidence), token)];
      next := i + 1;
    }
  }

  /** The window loop: lengths from `min(3, len(tokens) - i)` down to 1, the first that matches. */
  method FindPhrase(tokens: seq<string>, d: Dict, i: nat) returns (n: Option<nat>)
    requires i < |tokens|
    ensures n == PhraseLen(tokens, d, i, Lookahead(tokens, i))
  {
    var len := Lookahead(tokens, i);
    while len > 0
      invariant PhraseLen(tokens, d, i, len) == PhraseLen(tokens, d, i, Lookahead(tokens, i))
    {
      var window := tokens[i..i + len];
      if AllWords(window) && HasKey(d, PhraseKey(window)) {
        return Some(len);
      }
      len := len - 1;
    }
    return None;
  }

  /** The first token's case-adjusted translation, then "" for each remaining token of the phrase. */
  method EmitPhrase(tokens: seq<string>, d: Dict, cs: bool, i: nat, n: nat) returns (entries: seq<TokenResult>)
    requires 1 <= n && i + n <= |tokens|
    ensures entries == PhraseEntries(tokens, d, cs, i, n)
  {
    PhraseEntriesShape(tokens, d, cs, i, n);
    var translation := Lookup(d, PhraseKey(tokens[i..i + n])).GetOr("");
    entries := [TokenResult(CaseAdjust(tokens[i], translation, cs), Gram(n), tokens[i])];
    for j := 1 to n
      invariant |entries| == j
      invariant entries[0] == PhraseEntries(tokens, d, cs, i, n)[0]
      invariant forall k :: 1 <= k < j ==> entries[k] == TokenResult("", GramPart(n), tokens[i + k])
    {
      entries := entries + [TokenResult("", GramPart(n), tokens[i + j])];
    }
    assert entries == PhraseEntries(tokens, d, cs, i, n);
  }

  /** The Dayak Kenyah branch for one word token: `next(iter(candidates))` may be any key of the set. */
  method ReverseToken(token: string, rev: ReverseIndex, cs: bool, ghost d: Dict) returns (r: TokenResult)
    requires IsReverseOf(rev, d) && IsWordToken(token)
    ensures DykResult(token, rev, cs, r)
  {
    var lowered := Lower(token);
    if lowered in rev {
      var k :| k in rev[lowered];
      r := TokenResult(CaseAdjust(token, k, cs), Reverse, token);
    } else {
      r := TokenResult(CaseAdjust(token, token, cs), Unmatched, token);
    }
  }

  // ---------------------------------------------------------------------
  // What the scan promises.

  /**
   * `r` is a result the scan may give for `tokens[k]`: it carries the token
   * as its original, a non-word token comes back unchanged as "preserved",
   * and a non-first phrase token gets the empty translation.
   */
  predicate ResultFor(tokens: seq<string>, k: nat, r: TokenResult)
    requires k < |tokens|
  {
    && r.original == tokens[k]
    && (!IsWordToken(tokens[k]) ==> r == TokenResult(tokens[k], Preserved, tokens[k]))
    && (r.tag.GramPart? ==> r.translation == "")
  }

  /** Length `n` windows that match are all words, so each phrase token is a word token. */
  lemma PhraseTokensAreWords(tokens: seq<string>, d: Dict, i: nat, n: nat, k: nat)
    requires i + n <= |tokens| && PhraseMatches(tokens, d, i, n) && k < n
    ensures IsWordToken(tokens[i + k])
  {
    assert tokens[i..i + n][k] == tokens[i + k];
  }

  /** `rs` are results for the tokens from `i` on, one each, in order. */
  predicate AllFor(tokens: seq<string>, i: nat, rs: seq<TokenResult>)
  {
    i + |rs| <= |tokens| && forall k :: 0 <= k < |rs| ==> ResultFor(tokens, i + k, rs[k])
  }

  lemma StepResults(tokens: seq<string>, d: Dict, single: string -> WordResult, cs: bool, i: nat)
    requires i < |tokens|
    ensures var s := IdStep(tokens, d, single, cs, i);
      |s.out| == s.next - i && AllFor(tokens, i, s.out)
  {
    var s := IdStep(tokens, d, single, cs, i);
    if IsWordToken(tokens[i]) {
      match PhraseLen(tokens, d, i, Lookahead(tokens, i))
      case Some(n) =>
        PhraseLenIsLongest(tokens, d, i, Lookahead(tokens, i));
        PhraseEntriesShape(tokens, d, cs, i, n);
        forall k | 0 <= k < |s.out| ensures ResultFor(tokens, i + k, s.out[k]) {
          PhraseTokensAreWords(tokens, d, i, n, k);
        }
      case None =>
    }
  }

  /** The Indonesian branch gives one result per token, in order. */
  lemma {:induction false} IdOnePerToken(tokens: seq<string>, d: Dict, single: string -> WordResult, cs: bool, i: nat)
    requires i <= |tokens|
    ensures |IdFrom(tokens, d, single, cs, i)| == |tokens| - i
    ensures AllFor(tokens, i, IdFrom(tokens, d, single, cs, i))
    decreases |tokens| - i
  {
    if i < |tokens| {
      var s := IdStep(tokens, d, single, cs, i);
      var rest := IdFrom(tokens, d, single, cs, s.next);
      StepResults(tokens, d, single, cs, i);
      IdOnePerToken(tokens, d, single, cs, s.next);
      assert IdFrom(tokens, d, single, cs, i) == s.out + rest;
      ResultsJoin(tokens, i, s.next, s.out, rest);
    }
  }

  /** Results for `tokens[i..j]` followed by results for `tokens[j..]` are results for `tokens[i..]`. */
  lemma ResultsJoin(tokens: seq<string>, i: nat, j: nat, out: seq<TokenResult>, rest: seq<TokenResult>)
    requires i <= j <= |tokens| && |out| == j - i
    requires AllFor(tokens, i, out) && AllFor(tokens, j, rest)
    ensures AllFor(tokens, i, out + rest)
  {
    forall k | 0 <= k < |out + rest| ensures ResultFor(tokens, i + k, (out + rest)[k]) {
      if k < |out| {
        assert (out + rest)[k] == out[k];
      } else {
        assert (out + rest)[k] == rest[k - |out|];
      }
    }
  }

  /** The Dayak Kenyah branch gives one result per token, in order, too. */
  lemma DykOnePerToken(tokens: seq<string>, rev: ReverseIndex, cs: bool, rs: seq<TokenResult>)
    requires DykResults(tokens, rev, cs, rs)
    ensures |rs| == |tokens| && forall k :: 0 <= k < |tokens| ==> ResultFor(tokens, k, rs[k])
    ensures forall k :: 0 <= k < |rs| ==> rs[k].tag in {Preserved, Reverse, Unmatched}
  {
    forall k | 0 <= k < |tokens| ensures ResultFor(tokens, k, rs[k]) && rs[k].tag in {Preserved, Reverse, Unmatched} {
      assert DykResult(tokens[k], rev, cs, rs[k]);
    }
  }

  /** Without adjacent word tokens, only one-token windows can match. */
  lemma {:induction false} OnlyOneTokenWindows(tokens: seq<string>, d: Dict, i: nat, n: nat)
    requires i + n <= |tokens| && NoAdjacentWords(tokens)
    ensures PhraseLen(tokens, d, i, n).Some? ==> PhraseLen(tokens, d, i, n).value == 1
    decreases n
  {
    if n >= 2 {
      LongWindowsNeverAllWords(tokens, i, n);
      OnlyOneTokenWindows(tokens, d, i, n - 1);
    }
  }

  /** A word token whose lower-cased form is a dictionary key always starts a phrase. */
  lemma KeyStartsPhrase(tokens: seq<string>, d: Dict, i: nat)
    requires i < |tokens| && IsWordToken(tokens[i]) && HasKey(d, Lower(tokens[i]))
    ensures PhraseLen(tokens, d, i, Lookahead(tokens, i)).Some?
  {
    assert tokens[i..i + 1] == [tokens[i]];
    assert LowerAll([tokens[i]]) == [Lower(tokens[i])];
    assert PhraseMatches(tokens, d, i, 1);
    PhraseLenIsLongest(tokens, d, i, Lookahead(tokens, i));
  }

  /**
   * The tags a scan yields: never an "exact" single-word tag (a word the
   * dictionary has is a one-token phrase instead), and, when `oneToken`,
   * only one-token phrases and so no "_part" tags.
   */
  predicate ScanTags(rs: seq<TokenResult>, oneToken: bool)
  {
    forall k :: 0 <= k < |rs| ==>
      && !(rs[k].tag.Scored? && rs[k].tag.kind == Exact)
      && (oneToken ==> !rs[k].tag.GramPart? && (rs[k].tag.Gram? ==> rs[k].tag.n == 1))
  }

  lemma ScanTagsJoin(a: seq<TokenResult>, b: seq<TokenResult>, oneToken: bool)
    requires ScanTags(a, oneToken) && ScanTags(b, oneToken)
    ensures ScanTags(a + b, oneToken)
  {
    forall k | 0 <= k < |a + b| ensures (a + b)[k] == if k < |a| then a[k] else b[k - |a|] {
    }
  }

  /** A word translator that answers "exact" only for dictionary words, as the cascade does. */
  ghost predicate ExactOnlyOnHit(d: Dict, single: string -> WordResult)
  {
    forall w :: single(w).kind == Exact ==> HasKey(d, Lower(w))
  }

  lemma CascadeExactOnlyOnHit(d: Dict)
    ensures ExactOnlyOnHit(d, Cascade(d))
  {
    forall w | Cascade(d)(w).kind == Exact ensures HasKey(d, Lower(w)) {
      var r := SingleWord(w, d);
      if !HasKey(d, Lower(w)) {
        SingleWordProperties(w, d);
        var forms := VercelMorphology.Analysis(Lower(w));
        if MorphScan(forms, d, 0).Some? {
          MorphScanFinds(forms, d, 0);
        }
      }
    }
  }

  lemma StepTags(tokens: seq<string>, d: Dict, single: string -> WordResult, cs: bool, i: nat)
    requires i < |tokens| && ExactOnlyOnHit(d, single)
    ensures ScanTags(IdStep(tokens, d, single, cs, i).out, NoAdjacentWords(tokens))
  {
    var token := tokens[i];
    if IsWordToken(token) {
      match PhraseLen(tokens, d, i, Lookahead(tokens, i))
      case Some(n) =>
        PhraseEntriesShape(tokens, d, cs, i, n);
        if NoAdjacentWords(tokens) {
          OnlyOneTokenWindows(tokens, d, i, Lookahead(tokens, i));
        }
      case None =>
        if HasKey(d, Lower(token)) {
          KeyStartsPhrase(tokens, d, i);
        }
    }
  }

  /** What `ScanTags` says holds of the whole Indonesian scan. */
  lemma {:induction false} IdScanTags(tokens: seq<string>, d: Dict, single: string -> WordResult, cs: bool, i: nat)
    requires i <= |tokens| && ExactOnlyOnHit(d, single)
    ensures ScanTags(IdFrom(tokens, d, single, cs, i), NoAdjacentWords(tokens))
    decreases |tokens| - i
  {
    if i < |tokens| {
      var s := IdStep(tokens, d, single, cs, i);
      StepTags(tokens, d, single, cs, i);
      IdScanTags(tokens, d, single, cs, s.next);
      ScanTagsJoin(s.out, IdFrom(tokens, d, single, cs, s.next), NoAdjacentWords(tokens));
    }
  }

  /**
   * The reverse index is keyed by the dictionary's values as written but
   * looked up with the lower-cased token, so a "reverse" result always
   * comes from a key whose value is the lower-cased token: values with an
   * upper-case letter are never reached.
   */
  lemma ReverseOnlyReachesLowerCaseValues(token: string, rev: ReverseIndex, d: Dict, cs: bool, r: TokenResult)
    requires IsReverseOf(rev, d) && UniqueKeys(d) && DykResult(token, rev, cs, r) && r.tag == Reverse
    ensures exists k :: r.translation == CaseAdjust(token, k, cs) && Lookup(d, k) == Some(Lower(token))
    ensures IsLowerCase(Lower(token))
  {
    var k :| k in rev[Lower(token)] && r.translation == CaseAdjust(token, k, cs);
    ReverseIsInverse(rev, d, Lower(token), k);
    LowerIsLowerCase(token);
  }
}
