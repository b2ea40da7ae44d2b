/**
 * `translate_text_async` and the `/translate` route of
 * webroot/server/main.py: tokenize with `(\w+|\W+)`, translate the tokens,
 * rebuild the text with the case of each word token, and weigh the match
 * types into a confidence.
 */
module WebrootService {
  import opened Wrappers
  import opened Text
  import opened Tokens
  import opened Dictionary
  import opened WebrootValidation
  import opened WebrootTranslate

  // ---------------------------------------------------------------------
  // Tokens.

  /** `[token for token in tokens if token]` */
  function DropEmpty(ts: seq<string>): (r: seq<string>)
    ensures forall k :: 0 <= k < |r| ==> r[k] != []
  {
    if ts == [] then []
    else
      var rest := DropEmpty(ts[1..]);
      if ts[0] == [] then rest
      else
        assert forall k :: 1 <= k < |[ts[0]] + rest| ==> ([ts[0]] + rest)[k] == rest[k - 1];
        [ts[0]] + rest
  }

  /** The tokens of the request text. */
  function TextTokens(text: string): seq<string>
  {
    DropEmpty(WordRuns(text))
  }

  /** Dropping empty tokens keeps every token that is not empty, so it changes nothing on tokens that are all non-empty. */
  lemma {:induction false} DropEmptyKeeps(ts: seq<string>)
    requires forall k :: 0 <= k < |ts| ==> ts[k] != []
    ensures DropEmpty(ts) == ts
  {
    if ts != [] {
      DropEmptyKeeps(ts[1..]);
    }
  }

  /**
   * The filter after `re.findall` changes nothing: the tokens are the
   * maximal runs of word and non-word characters, they spell the text, and
   * no two word tokens are neighbours.
   */
  lemma TextTokensAreRuns(text: string)
    ensures TextTokens(text) == WordRuns(text)
    ensures Concat(TextTokens(text)) == text
    ensures NoAdjacentWords(TextTokens(text))
  {
    RunsUniform(text, Kind2);
    DropEmptyKeeps(WordRuns(text));
    WordRunsLossless(text);
  }

  // ---------------------------------------------------------------------
  // Reconstruction.

  /** What the reconstruction writes for one result: a word token's translation in the token's case, any other token as it was. */
  function Emit(r: TokenResult, cs: bool): string
  {
    if IsWordToken(r.original) then Adjust(r.original, r.translation, cs) else r.original
  }

  function Emits(rs: seq<TokenResult>, cs: bool): (es: seq<string>)
    ensures |es| == |rs| && forall k :: 0 <= k < |rs| ==> es[k] == Emit(rs[k], cs)
  {
    seq(|rs|, k requires 0 <= k < |rs| => Emit(rs[k], cs))
  }

  /** The reconstruction loop of `translate_text_async`. */
  method Reconstruct(rs: seq<TokenResult>, cs: bool) returns (text: string)
    ensures text == Concat(Emits(rs, cs))
  {
    text := "";
    for i := 0 to |rs|
      invariant text == Concat(Emits(rs[..i], cs))
    {
      var piece := ReconstructToken(rs[i], cs);
      assert Emits(rs[..i + 1], cs) == Emits(rs[..i], cs) + [Emit(rs[i], cs)];
      ConcatAppend(Emits(rs[..i], cs), [Emit(rs[i], cs)]);
      ConcatSingle(Emit(rs[i], cs));
      text := text + piece;
    }
    assert rs[..|rs|] == rs;
  }

  method ReconstructToken(r: TokenResult, cs: bool) returns (piece: string)
    ensures piece == Emit(r, cs)
  {
    if IsWordToken(r.original) {
      piece := ApplyCase(r.original, r.translation, cs);
    } else {
      piece := r.original;
    }
  }

  // ---------------------------------------------------------------------
  // Confidence.

  /** The credit of a match type: 1.0, 0.9 and 0.7 for exact, morphological and lightweight, nothing for a phrase tag. */
  function Weight(t: Tag): real
  {
    match t
    case Exact => 1.0
    case Morphological => 0.9
    case Lightweight => 0.7
    case _ => 0.0
  }

  /** The number of results whose match type is not "none". */
  function Counted(rs: seq<TokenResult>): nat
  {
    if rs == [] then 0 else Counted(rs[..|rs| - 1]) + (if rs[|rs| - 1].tag != NoMatch then 1 else 0)
  }

  /** The summed credit of the results whose match type is not "none". */
  function Score(rs: seq<TokenResult>): real
  {
    if rs == [] then 0.0 else Score(rs[..|rs| - 1]) + (if rs[|rs| - 1].tag != NoMatch then Weight(rs[|rs| - 1].tag) else 0.0)
  }

  function Confidence(rs: seq<TokenResult>): real
  {
    if Counted(rs) > 0 then Score(rs) / Counted(rs) as real else 0.0
  }

  /** The confidence loop of `translate_text_async`. */
  method ComputeConfidence(rs: seq<TokenResult>) returns (confidence: real)
    ensures confidence == Confidence(rs)
  {
    var total := 0.0;
    var count := 0;
    for i := 0 to |rs|
      invariant count == Counted(rs[..i]) && total == Score(rs[..i])
    {
      assert rs[..i + 1][..i] == rs[..i];
      var t := rs[i].tag;
      if t != NoMatch {
        count := count + 1;
        if t == Exact {
          total := total + 1.0;
        } else if t == Morphological {
          total := total + 0.9;
        } else if t == Lightweight {
          total := total + 0.7;
        }
      }
    }
    assert rs[..|rs|] == rs;
    confidence := if count > 0 then total / count as real else 0.0;
  }

  /** When every counted result weighs at most `w`, the score is at most `w` per counted result, and never negative. */
  lemma {:induction false} ScoreAtMost(rs: seq<TokenResult>, w: real)
    requires forall k :: 0 <= k < |rs| && rs[k].tag != NoMatch ==> Weight(rs[k].tag) <= w
    ensures 0.0 <= Score(rs) <= w * Counted(rs) as real
  {
    if rs != [] {
      var init := rs[..|rs| - 1];
      forall k | 0 <= k < |init| && init[k].tag != NoMatch ensures Weight(init[k].tag) <= w {
        assert init[k] == rs[k];
      }
      ScoreAtMost(init, w);
      var last := rs[|rs| - 1].tag;
      var x := if last != NoMatch then Weight(last) else 0.0;
      var b := if last != NoMatch then 1.0 else 0.0;
      assert init == rs[..|rs| - 1];
      StepBound(Score(init), Counted(init) as real, x, b, w);
      assert Score(rs) == Score(init) + x;
      assert Counted(rs) as real == Counted(init) as real + b;
    }
  }

  lemma StepBound(s: real, c: real, x: real, b: real, w: real)
    requires 0.0 <= s <= w * c && 0.0 <= x <= w * b
    ensures 0.0 <= s + x <= w * (c + b)
  {
  }

  /** When every counted result weighs exactly `w`, the score is `w` per counted result. */
  lemma {:induction false} ScoreExactly(rs: seq<TokenResult>, w: real)
    requires forall k :: 0 <= k < |rs| && rs[k].tag != NoMatch ==> Weight(rs[k].tag) == w
    ensures Score(rs) == w * Counted(rs) as real
  {
    if rs != [] {
      var init := rs[..|rs| - 1];
      forall k | 0 <= k < |init| && init[k].tag != NoMatch ensures Weight(init[k].tag) == w {
        assert init[k] == rs[k];
      }
      ScoreExactly(init, w);
    }
  }

  lemma QuotientAtMost(a: real, c: real, w: real)
    requires c > 0.0 && a <= w * c
    ensures a / c <= w
  {
    assert a / c * c == a;
  }

  /**
   * The confidence is a weighted share in [0, 1]; it is 0.0 when no result
   * is counted, and at most `w` when no counted result weighs more than `w`.
   */
  lemma ConfidenceAtMost(rs: seq<TokenResult>, w: real)
    requires 0.0 <= w && forall k :: 0 <= k < |rs| && rs[k].tag != NoMatch ==> Weight(rs[k].tag) <= w
    ensures 0.0 <= Confidence(rs) <= w
  {
    ScoreAtMost(rs, w);
    if Counted(rs) > 0 {
      QuotientAtMost(Score(rs), Counted(rs) as real, w);
    }
  }

  lemma ConfidenceBounds(rs: seq<TokenResult>)
    ensures 0.0 <= Confidence(rs) <= 1.0
    ensures Counted(rs) == 0 ==> Confidence(rs) == 0.0
  {
    ConfidenceAtMost(rs, 1.0);
  }

  /** A text whose every counted result is an exact match gets confidence 1.0. */
  lemma AllExactFullConfidence(rs: seq<TokenResult>)
    requires Counted(rs) > 0
    requires forall k :: 0 <= k < |rs| ==> rs[k].tag == NoMatch || rs[k].tag == Exact
    ensures Confidence(rs) == 1.0
  {
    ScoreExactly(rs, 1.0);
  }

  /**
   * Phrase tags count in the denominator but earn no credit, so a text whose
   * every match is a phrase match gets confidence 0.0.
   */
  lemma PhrasesWeighNothing(rs: seq<TokenResult>)
    requires forall k :: 0 <= k < |rs| ==> rs[k].tag == NoMatch || rs[k].tag.Gram?
    ensures Confidence(rs) == 0.0
  {
    ScoreExactly(rs, 0.0);
  }

  // ---------------------------------------------------------------------
  // translate_text_async.

  datatype TranslationResult = TranslationResult(sourceLang: string, targetLang: string, sourceText: string,
                                                 translatedText: string, confidence: real)

  /** The results `process_tokens` may give: those of the Indonesian branch, or the Dayak Kenyah branch's. */
  ghost predicate ProcessResults(tokens: seq<string>, sourceLang: string, d: Dict, opts: Options, rs: seq<TokenResult>)
  {
    if sourceLang == "id" then IdResults(tokens, d, opts, rs) else rs == DykResults(tokens, d, opts)
  }

  /** `translate_text_async(text, source_lang, target_lang, options)`; `rs` are the token results it went through. */
  method TranslateText(text: string, sourceLang: string, targetLang: string, d: Dict, opts: Options)
    returns (result: TranslationResult, ghost rs: seq<TokenResult>)
    ensures ProcessResults(TextTokens(text), sourceLang, d, opts, rs)
    ensures result == TranslationResult(sourceLang, targetLang, text, Concat(Emits(rs, opts.caseSensitive)), Confidence(rs))
  {
    var tokens := DropEmpty(WordRuns(text));
    var processed := ProcessTokens(tokens, sourceLang, d, opts);
    rs := processed;
    var resultText := Reconstruct(processed, opts.caseSensitive);
    var confidence := ComputeConfidence(processed);
    result := TranslationResult(sourceLang, targetLang, text, resultText, confidence);
  }

  /** Each result stands for its token, and its translation already follows the token's case. */
  lemma ProcessResultsFacts(tokens: seq<string>, sourceLang: string, d: Dict, opts: Options, rs: seq<TokenResult>)
    requires ProcessResults(tokens, sourceLang, d, opts, rs)
    ensures |rs| == |tokens|
    ensures forall k :: 0 <= k < |tokens| ==> ResultFor(tokens, k, rs[k]) && Cased(rs[k], opts.caseSensitive)
  {
    if sourceLang == "id" {
      IdOnePerToken(tokens, d, opts, rs);
    } else {
      DykOnePerToken(tokens, d, opts);
    }
  }

  /**
   * The rebuilt text has one piece per token: every non-word token as it
   * was (spaces, punctuation and line breaks stay where they were), and
   * every word token's translation, which the second case pass leaves
   * unchanged.
   */
  lemma ReconstructionFacts(text: string, sourceLang: string, d: Dict, opts: Options, rs: seq<TokenResult>)
    requires ProcessResults(TextTokens(text), sourceLang, d, opts, rs)
    ensures var tokens := TextTokens(text);
      var out := Emits(rs, opts.caseSensitive);
      && |out| == |tokens|
      && (forall k :: 0 <= k < |tokens| && !IsWordToken(tokens[k]) ==> out[k] == tokens[k])
      && (forall k :: 0 <= k < |tokens| && IsWordToken(tokens[k]) ==> out[k] == rs[k].translation)
  {
    ProcessResultsFacts(TextTokens(text), sourceLang, d, opts, rs);
  }

  /** A text without word characters comes back unchanged. */
  lemma NoWordsUnchanged(text: string, sourceLang: string, d: Dict, opts: Options, rs: seq<TokenResult>)
    requires ProcessResults(TextTokens(text), sourceLang, d, opts, rs)
    requires forall j :: 0 <= j < |text| ==> !IsWordChar(text[j])
    ensures Concat(Emits(rs, opts.caseSensitive)) == text
    ensures Confidence(rs) == 0.0
  {
    var tokens := TextTokens(text);
    TextTokensAreRuns(text);
    ReconstructionFacts(text, sourceLang, d, opts, rs);
    ProcessResultsFacts(tokens, sourceLang, d, opts, rs);
    forall k | 0 <= k < |tokens| ensures !IsWordToken(tokens[k]) {
      TokenCharsInText(tokens, k);
    }
    assert Emits(rs, opts.caseSensitive) == tokens;
    forall k | 0 <= k < |rs| ensures rs[k].tag == NoMatch {
      assert ResultFor(tokens, k, rs[k]);
    }
    NoCountNoConfidence(rs);
  }

  /** Every character of a token is a character of the text the tokens spell. */
  lemma {:induction false} TokenCharsInText(tokens: seq<string>, k: nat)
    requires k < |tokens| && tokens[k] != []
    ensures tokens[k][0] in Concat(tokens)
    decreases k
  {
    if k == 0 {
      assert Concat(tokens) == tokens[0] + Concat(tokens[1..]);
    } else {
      TokenCharsInText(tokens[1..], k - 1);
      assert tokens[1..][k - 1] == tokens[k];
      assert Concat(tokens) == tokens[0] + Concat(tokens[1..]);
    }
  }

  lemma {:induction false} NoCountNoConfidence(rs: seq<TokenResult>)
    requires forall k :: 0 <= k < |rs| ==> rs[k].tag == NoMatch
    ensures Counted(rs) == 0
  {
    if rs != [] {
      var init := rs[..|rs| - 1];
      assert forall k :: 0 <= k < |init| ==> init[k] == rs[k];
      NoCountNoConfidence(init);
    }
  }

  /**
   * The confidence of a translation lies in [0, 1]. From Dayak Kenyah it is
   * at most 0.7: phrase matches earn nothing and only the lightweight
   * fallback earns credit; and since the tokenizer never puts two word
   * tokens side by side, every phrase match is a single token.
   */
  lemma ConfidenceFacts(text: string, sourceLang: string, d: Dict, opts: Options, rs: seq<TokenResult>)
    requires ProcessResults(TextTokens(text), sourceLang, d, opts, rs)
    ensures 0.0 <= Confidence(rs) <= 1.0
    ensures sourceLang != "id" ==> Confidence(rs) <= 0.7
    ensures sourceLang != "id" ==> forall k :: 0 <= k < |rs| && rs[k].tag.Gram? ==> rs[k].tag.n == 1
  {
    ConfidenceBounds(rs);
    if sourceLang != "id" {
      var tokens := TextTokens(text);
      TextTokensAreRuns(text);
      DykOnePerToken(tokens, d, opts);
      forall k | 0 <= k < |rs| && rs[k].tag != NoMatch ensures Weight(rs[k].tag) <= 0.7 {
        assert DykResultFor(tokens, k, rs[k], opts.caseSensitive);
      }
      ConfidenceAtMost(rs, 0.7);
      forall k | 0 <= k < |rs| && rs[k].tag.Gram? ensures rs[k].tag.n == 1 {
        assert DykResultFor(tokens, k, rs[k], opts.caseSensitive);
      }
    }
  }

  // ---------------------------------------------------------------------
  // The /translate route.

  /** The fields of a request the route reads (the options that affect nothing are left out). */
  datatype Payload = Payload(sourceLang: string, targetLang: string, text: string, options: Options, batchSize: int)

  /** Which path produced a successful reply. */
  datatype Model = DirectCopy | Translator

  datatype Response =
    | Invalid(errors: seq<FieldError>)
    | Unavailable(code: string, message: string, details: string)
    | Success(requestId: string, result: TranslationResult, model: Model)

  function Status(r: Response): nat
  {
    match r
    case Invalid(_) => 422
    case Unavailable(_, _, _) => 503
    case Success(_, _, _) => 200
  }

  function Errors(p: Payload): seq<FieldError>
  {
    PayloadErrors(p.sourceLang, p.targetLang, p.text, p.batchSize)
  }

  /**
   * The `/translate` route: a payload that fails validation is refused
   * first, then an empty dictionary; the same source and target language
   * copy the text with confidence 1.0; otherwise the text is translated.
   */
  method Translate(requestId: string, p: Payload, d: Dict) returns (resp: Response, ghost rs: seq<TokenResult>)
    ensures resp.Invalid? <==> Errors(p) != []
    ensures resp.Invalid? ==> resp.errors == Errors(p)
    ensures resp.Unavailable? <==> Errors(p) == [] && d == []
    ensures resp.Unavailable? ==>
      resp == Unavailable("SERVICE_UNAVAILABLE", "Translation service is not ready", "Dictionary not loaded")
    ensures Errors(p) == [] && d != [] && p.sourceLang == p.targetLang ==>
      resp == Success(requestId, TranslationResult(p.sourceLang, p.targetLang, p.text, p.text, 1.0), DirectCopy)
    ensures Errors(p) == [] && d != [] && p.sourceLang != p.targetLang ==>
      && ProcessResults(TextTokens(p.text), p.sourceLang, d, p.options, rs)
      && resp == Success(requestId, TranslationResult(p.sourceLang, p.targetLang, p.text,
                                                      Concat(Emits(rs, p.options.caseSensitive)), Confidence(rs)), Translator)
  {
    rs := [];
    var errors := Errors(p);
    if errors != [] {
      return Invalid(errors), rs;
    }
    if d == [] {
      return Unavailable("SERVICE_UNAVAILABLE", "Translation service is not ready", "Dictionary not loaded"), rs;
    }
    if p.sourceLang == p.targetLang {
      return Success(requestId, TranslationResult(p.sourceLang, p.targetLang, p.text, p.text, 1.0), DirectCopy), rs;
    }
    var result;
    result, rs := TranslateText(p.text, p.sourceLang, p.targetLang, d, p.options);
    resp := Success(requestId, result, Translator);
  }

  /** A request the route translates has one valid language on each side and the two differ, so "dyk" is the only other source. */
  lemma TranslatedDirections(p: Payload)
    requires Errors(p) == [] && p.sourceLang != p.targetLang
    ensures p.sourceLang == "id" ==> p.targetLang == "dyk"
    ensures p.sourceLang != "id" ==> p.sourceLang == "dyk" && p.targetLang == "id"
    ensures 1 <= |p.text| <= MaxTextLength
  {
    assert IsBlank([]);
  }
}
