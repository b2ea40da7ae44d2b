/**
 * The translation request of vercel-deployment/api/translate.py (`do_POST`):
 * validation, the same-language short cut, line-wise tokenization, the scan,
 * and the reconstruction and confidence loop.
 */
module VercelHandler {
  import opened Wrappers
  import opened Text
  import opened Tokens
  import opened Dictionary
  import opened VercelTags
  import opened VercelSingleWord
  import opened VercelScanner

  // ---------------------------------------------------------------------
  // Tokenization: each line of `splitlines(keepends=True)` split into runs
  // of `(\w+|\s+|[^\w\s]+)`.

  /** The tokens of `lines[..n]`, line after line. */
  function LinesTokens(lines: seq<string>, n: nat): seq<string>
    requires n <= |lines|
  {
    if n == 0 then [] else LinesTokens(lines, n - 1) + LineRuns(lines[n - 1])
  }

  function TextTokens(text: string): seq<string>
  {
    LinesTokens(SplitLines(text), |SplitLines(text)|)
  }

  method Tokenize(text: string) returns (tokens: seq<string>)
    ensures tokens == TextTokens(text)
  {
    var lines := SplitLines(text);
    tokens := [];
    for n := 0 to |lines|
      invariant tokens == LinesTokens(lines, n)
    {
      var lineTokens := LineRuns(lines[n]);
      tokens := tokens + lineTokens;
    }
  }

  lemma LineBreakIsNotWord(c: char)
    requires IsLineBreak(c)
    ensures IsSpace(c) && !IsWordChar(c)
  {
  }

  /** Joining two token lists keeps words apart when the first ends in a non-word token. */
  lemma NoAdjacentWordsJoin(a: seq<string>, b: seq<string>)
    requires NoAdjacentWords(a) && NoAdjacentWords(b)
    requires a == [] || !IsWordToken(Last(a))
    ensures NoAdjacentWords(a + b)
  {
    var ab := a + b;
    forall i | 0 <= i < |ab| - 1 ensures !(IsWordToken(ab[i]) && IsWordToken(ab[i + 1])) {
      if i + 1 < |a| {
        assert ab[i] == a[i] && ab[i + 1] == a[i + 1];
      } else if i + 1 == |a| {
        assert ab[i] == Last(a);
      } else {
        assert ab[i] == b[i - |a|] && ab[i + 1] == b[i + 1 - |a|];
      }
    }
  }

  /** Facts about the runs of one line. */
  lemma LineFacts(line: string)
    requires line != []
    ensures LineRuns(line) != [] && Last(LineRuns(line)) != []
    ensures Last(LineRuns(line))[|Last(LineRuns(line))| - 1] == line[|line| - 1]
  {
    var ts := LineRuns(line);
    LineRunsMaximal(line);
    RunsUniform(line, Kind3);
    ConcatLastChar(ts);
  }

  /**
   * Line-wise tokenization gives the lines back when concatenated, every
   * token is a word or free of word characters, and no two word tokens
   * are neighbours (within a line they are maximal runs; a line ends with a
   * line break, which is not a word character).
   */
  lemma LinesTokensFacts(lines: seq<string>, n: nat)
    requires n <= |lines|
    requires forall i :: 0 <= i < |lines| ==> lines[i] != []
    requires forall i :: 0 <= i < |lines| - 1 ==> IsLineBreak(lines[i][|lines[i]| - 1])
    ensures Concat(LinesTokens(lines, n)) == Concat(lines[..n])
    ensures forall k :: 0 <= k < |LinesTokens(lines, n)| ==> Homogeneous(LinesTokens(lines, n)[k])
    ensures NoAdjacentWords(LinesTokens(lines, n))
    ensures n > 0 && n < |lines| ==> LinesTokens(lines, n) != [] && !IsWordToken(Last(LinesTokens(lines, n)))
  {
    LinesTokensConcat(lines, n);
    LinesTokensHomogeneous(lines, n);
    LinesTokensSeparated(lines, n);
  }

  lemma {:induction false} LinesTokensConcat(lines: seq<string>, n: nat)
    requires n <= |lines|
    ensures Concat(LinesTokens(lines, n)) == Concat(lines[..n])
    decreases n
  {
    if n > 0 {
      var prev := LinesTokens(lines, n - 1);
      var line := lines[n - 1];
      LinesTokensConcat(lines, n - 1);
      LineRunsMaximal(line);
      ConcatAppend(prev, LineRuns(line));
      assert lines[..n] == lines[..n - 1] + [line];
      ConcatAppend(lines[..n - 1], [line]);
      ConcatSingle(line);
    }
  }

  lemma {:induction false} LinesTokensHomogeneous(lines: seq<string>, n: nat)
    requires n <= |lines|
    ensures forall k :: 0 <= k < |LinesTokens(lines, n)| ==> Homogeneous(LinesTokens(lines, n)[k])
    decreases n
  {
    if n > 0 {
      var prev := LinesTokens(lines, n - 1);
      var runs := LineRuns(lines[n - 1]);
      LinesTokensHomogeneous(lines, n - 1);
      LineRunsMaximal(lines[n - 1]);
      var all := prev + runs;
      forall k | 0 <= k < |all| ensures Homogeneous(all[k]) {
        if k < |prev| { assert all[k] == prev[k]; } else { assert all[k] == runs[k - |prev|]; }
      }
    }
  }

  lemma {:induction false} LinesTokensSeparated(lines: seq<string>, n: nat)
    requires n <= |lines|
    requires forall i :: 0 <= i < |lines| ==> lines[i] != []
    requires forall i :: 0 <= i < |lines| - 1 ==> IsLineBreak(lines[i][|lines[i]| - 1])
    ensures NoAdjacentWords(LinesTokens(lines, n))
    ensures n > 0 && n < |lines| ==> LinesTokens(lines, n) != [] && !IsWordToken(Last(LinesTokens(lines, n)))
    decreases n
  {
    if n > 0 {
      var prev := LinesTokens(lines, n - 1);
      var line := lines[n - 1];
      var runs := LineRuns(line);
      LinesTokensSeparated(lines, n - 1);
      LineRunsMaximal(line);
      LineFacts(line);
      NoAdjacentWordsJoin(prev, runs);
      if n < |lines| {
        assert Last(prev + runs) == Last(runs);
        LineBreakIsNotWord(line[|line| - 1]);
      }
    }
  }

  /** The tokenizer of the request is lossless, and no two word tokens are neighbours. */
  lemma TokenizeLossless(text: string)
    ensures Concat(TextTokens(text)) == text
    ensures forall k :: 0 <= k < |TextTokens(text)| ==> Homogeneous(TextTokens(text)[k])
    ensures NoAdjacentWords(TextTokens(text))
  {
    var lines := SplitLines(text);
    SplitLinesLossless(text);
    LinesTokensFacts(lines, |lines|);
    assert lines[..|lines|] == lines;
  }

  // ---------------------------------------------------------------------
  // Reconstruction and statistics.

  /** The translated text so far and the counters of the reconstruction loop. */
  datatype Stats = Stats(text: string, words: nat, exact: nat, synonym: nat, morphological: nat,
                         lightweight: nat, multiWord: nat)

  const NoStats := Stats("", 0, 0, 0, 0, 0, 0)

  /** What the reconstruction writes for one result: a word token's translation, any other token as it was. */
  function Emit(r: TokenResult): string
  {
    if IsWordToken(r.original) then r.translation else r.original
  }

  function Emits(rs: seq<TokenResult>): (es: seq<string>)
    ensures |es| == |rs| && forall k :: 0 <= k < |rs| ==> es[k] == Emit(rs[k])
  {
    seq(|rs|, k requires 0 <= k < |rs| => Emit(rs[k]))
  }

  /**
   * The reconstruction loop from `rs[i]` on, with counters `acc`. Of the
   * source's if/elif chain on a word token's tag text only the phrase test
   * ever succeeds (`OnlyPhrasesCount`), so a phrase tag counts once and skips
   * the rest of its phrase, and every other word token counts as a word only.
   */
  function TallyFrom(rs: seq<TokenResult>, i: nat, acc: Stats): Stats
    decreases |rs| - i
  {
    if i >= |rs| then acc
    else
      var r := rs[i];
      var acc := acc.(text := acc.text + Emit(r));
      if !IsWordToken(r.original) then TallyFrom(rs, i + 1, acc)
      else if r.tag.Gram? then TallyFrom(rs, i + r.tag.n, acc.(words := acc.words + 1, multiWord := acc.multiWord + 1))
      else TallyFrom(rs, i + 1, acc.(words := acc.words + 1))
  }

  function Tally(rs: seq<TokenResult>): Stats
  {
    TallyFrom(rs, 0, NoStats)
  }

  /** The weighted share of matched words: 1.0 for exact, synonym and phrase matches, 0.9 and 0.7 for the others. */
  function Confidence(s: Stats): real
  {
    if s.words > 0 then
      ((s.exact + s.synonym + s.multiWord) as real + 0.9 * s.morphological as real + 0.7 * s.lightweight as real)
        / s.words as real
    else 0.0
  }

  /** The reconstruction loop of `do_POST`. */
  method Reconstruct(rs: seq<TokenResult>) returns (stats: Stats)
    ensures stats == Tally(rs)
  {
    var text := "";
    var words, exact, synonym, morphological, lightweight, multiWord := 0, 0, 0, 0, 0, 0;
    var i := 0;
    while i < |rs|
      invariant exact == 0 && synonym == 0 && morphological == 0 && lightweight == 0
      invariant TallyFrom(rs, i, Stats(text, words, exact, synonym, morphological, lightweight, multiWord)) == Tally(rs)
      decreases |rs| - i
    {
      var r := rs[i];
      if IsWordToken(r.original) {
        text := text + r.translation;
      } else {
        text := text + r.original;
      }
      if IsWordToken(r.original) {
        words := words + 1;
        OnlyPhrasesCount(r.tag);
        match Classify(TagText(r.tag)) {
          case CountPhrase(Some(n)) =>
            multiWord := multiWord + 1;
            i := i + n - 1;
          case NotCounted =>
          case _ =>
            // "exact", "synonym_rbmt", "morphological" and "lightweight" are never tag texts
            assert false;
        }
      }
      i := i + 1;
    }
    stats := Stats(text, words, exact, synonym, morphological, lightweight, multiWord);
  }

  function CountWords(rs: seq<TokenResult>): nat
  {
    if rs == [] then 0 else (if IsWordToken(rs[0].original) then 1 else 0) + CountWords(rs[1..])
  }

  function CountPhrases(rs: seq<TokenResult>): nat
  {
    if rs == [] then 0 else (if IsWordToken(rs[0].original) && rs[0].tag.Gram? then 1 else 0) + CountPhrases(rs[1..])
  }

  /** Every phrase is a single token. */
  predicate OneTokenPhrases(rs: seq<TokenResult>)
  {
    forall k :: 0 <= k < |rs| ==> rs[k].tag.Gram? ==> rs[k].tag.n == 1
  }

  /** Each phrase adds one to the phrase counter and to the word counter, so phrases never outnumber words. */
  lemma {:induction false} TallyCounts(rs: seq<TokenResult>, i: nat, acc: Stats)
    requires acc.multiWord <= acc.words
    ensures var s := TallyFrom(rs, i, acc);
      && s.exact == acc.exact && s.synonym == acc.synonym
      && s.morphological == acc.morphological && s.lightweight == acc.lightweight
      && acc.multiWord <= s.multiWord && s.multiWord - acc.multiWord <= s.words - acc.words
    decreases |rs| - i
  {
    if i < |rs| {
      var r := rs[i];
      var acc1 := acc.(text := acc.text + Emit(r));
      if !IsWordToken(r.original) {
        TallyCounts(rs, i + 1, acc1);
      } else if r.tag.Gram? {
        TallyCounts(rs, i + r.tag.n, acc1.(words := acc1.words + 1, multiWord := acc1.multiWord + 1));
      } else {
        TallyCounts(rs, i + 1, acc1.(words := acc1.words + 1));
      }
    }
  }

  /** With one-token phrases nothing is skipped: the text is every result's emission, in order. */
  lemma {:induction false} TallyOneTokenPhrases(rs: seq<TokenResult>, i: nat, acc: Stats)
    requires i <= |rs| && OneTokenPhrases(rs)
    ensures var s := TallyFrom(rs, i, acc);
      && s.text == acc.text + Concat(Emits(rs)[i..])
      && s.words == acc.words + CountWords(rs[i..])
      && s.multiWord == acc.multiWord + CountPhrases(rs[i..])
    decreases |rs| - i
  {
    if i < |rs| {
      var next := Counted(acc, rs[i]);
      TallyStep(rs, i);
      TallyFromOne(rs, i, acc);
      TallyOneTokenPhrases(rs, i + 1, next);
      AppendAssoc(acc.text, Emit(rs[i]), Concat(Emits(rs)[i + 1..]));
    } else {
      assert Emits(rs)[i..] == [];
      assert rs[i..] == [];
    }
  }

  lemma AppendAssoc(a: string, b: string, c: string)
    ensures (a + b) + c == a + (b + c)
  {
  }

  /** The counters after one result of a one-token phrase scan. */
  function Counted(acc: Stats, r: TokenResult): (next: Stats)
    ensures next.text == acc.text + Emit(r)
    ensures next.words == acc.words + if IsWordToken(r.original) then 1 else 0
    ensures next.multiWord == acc.multiWord + if IsWordToken(r.original) && r.tag.Gram? then 1 else 0
  {
    var acc := acc.(text := acc.text + Emit(r));
    if !IsWordToken(r.original) then acc
    else if r.tag.Gram? then acc.(words := acc.words + 1, multiWord := acc.multiWord + 1)
    else acc.(words := acc.words + 1)
  }

  /** When the result at `i` is a one-token phrase or no phrase, the loop goes on at `i + 1`. */
  lemma TallyFromOne(rs: seq<TokenResult>, i: nat, acc: Stats)
    requires i < |rs| && (rs[i].tag.Gram? ==> rs[i].tag.n == 1)
    ensures TallyFrom(rs, i, acc) == TallyFrom(rs, i + 1, Counted(acc, rs[i]))
  {
  }

  /** The emissions and counts from `rs[i]` on are those of `rs[i]` followed by those of the rest. */
  lemma TallyStep(rs: seq<TokenResult>, i: nat)
    requires i < |rs|
    ensures Concat(Emits(rs)[i..]) == Emit(rs[i]) + Concat(Emits(rs)[i + 1..])
    ensures CountWords(rs[i..]) == (if IsWordToken(rs[i].original) then 1 else 0) + CountWords(rs[i + 1..])
    ensures CountPhrases(rs[i..]) == (if IsWordToken(rs[i].original) && rs[i].tag.Gram? then 1 else 0) + CountPhrases(rs[i + 1..])
  {
    assert rs[i..][1..] == rs[i + 1..];
    assert Emits(rs)[i..][1..] == Emits(rs)[i + 1..];
  }

  /** The confidence lies in [0, 1], is 0 without word tokens, and is the share of phrase matches. */
  lemma ConfidenceOfTally(rs: seq<TokenResult>)
    ensures var s := Tally(rs);
      && s.exact == 0 && s.synonym == 0 && s.morphological == 0 && s.lightweight == 0
      && 0.0 <= Confidence(s) <= 1.0
      && (s.words == 0 ==> Confidence(s) == 0.0)
      && (s.words > 0 ==> Confidence(s) == s.multiWord as real / s.words as real)
  {
    TallyCounts(rs, 0, NoStats);
    var s := Tally(rs);
    if s.words > 0 {
      assert s.multiWord as real <= s.words as real;
    }
  }

  // ---------------------------------------------------------------------
  // The request.

  datatype Reply =
    | Rejected(status: nat, code: string, message: string)
    | Translated(translatedText: string, confidence: real, stats: Stats)

  /** translate.py's own language check and length limit; each of the three programs validates separately. */
  predicate IsLanguage(lang: string) { lang == "id" || lang == "dyk" }

  const MaxLength := 10000

  /** The checks of `do_POST`, in order: the dictionary, then the text, the languages and the length. */
  function Validate(d: Dict, text: string, sourceLang: string, targetLang: string): (r: Option<Reply>)
    ensures r.Some? <==> d == [] || text == [] || !IsLanguage(sourceLang) || !IsLanguage(targetLang) || |text| > MaxLength
    ensures r.Some? ==> r.value.Rejected? && (r.value.status == 503 <==> d == [])
  {
    if d == [] then Some(Rejected(503, "DICTIONARY_NOT_LOADED", "Translation dictionary is not loaded."))
    else if text == [] then Some(Rejected(400, "VALIDATION_ERROR", "Text is required"))
    else if !IsLanguage(sourceLang) || !IsLanguage(targetLang) then
      Some(Rejected(400, "VALIDATION_ERROR", "Invalid language code. Use 'id' for Indonesian or 'dyk' for Dayak"))
    else if |text| > MaxLength then
      Some(Rejected(400, "VALIDATION_ERROR", "Text too long. Maximum length is 10000 characters"))
    else None
  }

  /** The results the scan may give for `tokens` (one fixed list for Indonesian, a choice of keys for Dayak Kenyah). */
  ghost predicate ScanOf(tokens: seq<string>, sourceLang: string, cs: bool, d: Dict, rev: ReverseIndex,
                         rs: seq<TokenResult>)
  {
    if sourceLang == "id" then rs == IdFrom(tokens, d, Cascade(d), cs, 0) else DykResults(tokens, rev, cs, rs)
  }

  function Finish(rs: seq<TokenResult>): Reply
  {
    var s := Tally(rs);
    Translated(s.text, Confidence(s), s)
  }

  /** `do_POST` from the decoded payload to the reply. */
  method HandleTranslate(text: string, sourceLang: string, targetLang: string, cs: bool, d: Dict, rev: ReverseIndex)
    returns (reply: Reply)
    requires IsReverseOf(rev, d)
    ensures Validate(d, text, sourceLang, targetLang).Some? ==> reply == Validate(d, text, sourceLang, targetLang).value
    ensures Validate(d, text, sourceLang, targetLang).None? && sourceLang == targetLang ==>
      reply == Translated(text, 1.0, NoStats)
    ensures Validate(d, text, sourceLang, targetLang).None? && sourceLang != targetLang ==>
      exists rs :: ScanOf(TextTokens(text), sourceLang, cs, d, rev, rs) && reply == Finish(rs)
  {
    var rejected := Validate(d, text, sourceLang, targetLang);
    if rejected.Some? {
      return rejected.value;
    }
    if sourceLang == targetLang {
      return Translated(text, 1.0, NoStats);
    }
    var tokens := Tokenize(text);
    var rs := ProcessTokens(tokens, sourceLang, cs, d, rev);
    var stats := Reconstruct(rs);
    reply := Translated(stats.text, Confidence(stats), stats);
    assert ScanOf(tokens, sourceLang, cs, d, rev, rs);
  }

  /** Without phrase tags the phrase counter stays 0. */
  lemma {:induction false} NoPhrasesNoCount(rs: seq<TokenResult>)
    requires forall k :: 0 <= k < |rs| ==> !rs[k].tag.Gram?
    ensures CountPhrases(rs) == 0
    decreases |rs|
  {
    if rs != [] {
      NoPhrasesNoCount(rs[1..]);
    }
  }

  /** The reply to results whose phrases are single tokens. */
  lemma FinishOneTokenPhrases(rs: seq<TokenResult>)
    requires OneTokenPhrases(rs)
    ensures Finish(rs).translatedText == Concat(Emits(rs))
    ensures Finish(rs).stats.words == CountWords(rs)
    ensures Finish(rs).stats.multiWord == CountPhrases(rs)
    ensures 0.0 <= Finish(rs).confidence <= 1.0
    ensures CountWords(rs) > 0 ==> Finish(rs).confidence == CountPhrases(rs) as real / CountWords(rs) as real
    ensures CountPhrases(rs) == 0 ==> Finish(rs).confidence == 0.0
  {
    TallyOneTokenPhrases(rs, 0, NoStats);
    assert Emits(rs)[0..] == Emits(rs) && rs[0..] == rs;
    ConfidenceOfTally(rs);
  }

  /** The Indonesian scan of a tokenized text: one result per token, and every phrase a single token. */
  lemma IdScanOfText(text: string, cs: bool, d: Dict)
    ensures var tokens := TextTokens(text);
      var rs := IdFrom(tokens, d, Cascade(d), cs, 0);
      && |rs| == |tokens| && (forall k :: 0 <= k < |tokens| ==> ResultFor(tokens, k, rs[k]))
      && OneTokenPhrases(rs)
  {
    var tokens := TextTokens(text);
    TokenizeLossless(text);
    IdOnePerToken(tokens, d, Cascade(d), cs, 0);
    CascadeExactOnlyOnHit(d);
    IdScanTags(tokens, d, Cascade(d), cs, 0);
    var rs := IdFrom(tokens, d, Cascade(d), cs, 0);
    forall k | 0 <= k < |tokens| ensures ResultFor(tokens, k, rs[k]) {
      assert ResultFor(tokens, 0 + k, rs[k]);
    }
  }

  /**
   * A translated reply has one result per token of the text, keeps every
   * token that is not a word as it was, and its confidence is the share of
   * word tokens matched as phrases. From Dayak Kenyah no phrase is ever
   * matched, so the confidence is 0.
   */
  lemma PipelineProperties(text: string, sourceLang: string, cs: bool, d: Dict, rev: ReverseIndex, rs: seq<TokenResult>)
    requires ScanOf(TextTokens(text), sourceLang, cs, d, rev, rs)
    ensures var tokens := TextTokens(text);
      |rs| == |tokens| && forall k :: 0 <= k < |tokens| ==> ResultFor(tokens, k, rs[k])
    ensures Finish(rs).translatedText == Concat(Emits(rs))
    ensures Finish(rs).stats.words == CountWords(rs)
    ensures Finish(rs).stats.multiWord == CountPhrases(rs)
    ensures 0.0 <= Finish(rs).confidence <= 1.0
    ensures CountWords(rs) > 0 ==> Finish(rs).confidence == CountPhrases(rs) as real / CountWords(rs) as real
    ensures sourceLang != "id" ==> Finish(rs).confidence == 0.0
  {
    if sourceLang == "id" {
      IdScanOfText(text, cs, d);
    } else {
      DykOnePerToken(TextTokens(text), rev, cs, rs);
      NoPhrasesNoCount(rs);
    }
    FinishOneTokenPhrases(rs);
  }
}
