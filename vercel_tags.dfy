/**
 * The match-type tags of vercel-deployment/api/translate.py as the text the
 * source builds, and the string tests its counting loop applies to them.
 */
module VercelTags {
  import opened Wrappers
  import opened Text
  import opened VercelRules

  /** A phrase length: the reconstruction loop skips `n - 1` entries, so 0 would never advance. */
  type Pos = n: nat | n >= 1 witness 1

  /** How `process_single_word` found its translation. */
  datatype WordKind = Exact | ByRule(rule: Rule) | Morphological | MorphRule(rule: Rule) | Fuzzy(key: string) | NoMatch

  /** The tag `process_tokens` attaches to one token. */
  datatype Tag =
    | Preserved                                // "preserved"
    | Gram(n: Pos)                             // "exact_{n}gram"
    | GramPart(n: Pos)                         // "exact_{n}gram_part"
    | Scored(kind: WordKind, confidence: real) // "{kind}_{confidence:.2f}"
    | Reverse                                  // "reverse"
    | Unmatched                                // "none"

  predicate IsDigit(c: char) { '0' <= c <= '9' }

  function Digit(d: nat): (c: char)
    requires d < 10
    ensures IsDigit(c)
  {
    ('0' as int + d) as char
  }

  /** Decimal text of `n`. */
  function NatText(n: nat): (s: string)
    ensures s != [] && forall i :: 0 <= i < |s| ==> IsDigit(s[i])
  {
    if n < 10 then [Digit(n)] else NatText(n / 10) + [Digit(n % 10)]
  }

  function DigitsValue(s: string): nat
    requires forall i :: 0 <= i < |s| ==> IsDigit(s[i])
  {
    if s == [] then 0
    else
      assert IsDigit(s[|s| - 1]);
      DigitsValue(s[..|s| - 1]) * 10 + (s[|s| - 1] as int - '0' as int)
  }

  /** `int(s)` on a string of ASCII digits; anything else is a `ValueError`. */
  function ParseNat(s: string): (r: Option<nat>)
    ensures r.Some? <==> s != [] && forall i :: 0 <= i < |s| ==> IsDigit(s[i])
  {
    if s != [] && forall i :: 0 <= i < |s| ==> IsDigit(s[i]) then Some(DigitsValue(s)) else None
  }

  lemma {:induction false} NatTextRoundTrip(n: nat)
    ensures ParseNat(NatText(n)) == Some(n)
  {
    var s := NatText(n);
    assert s[|s| - 1] as int - '0' as int == n % 10;
    if n < 10 {
      assert s[..|s| - 1] == [];
      assert DigitsValue(s) == DigitsValue([]) * 10 + n;
    } else {
      NatTextRoundTrip(n / 10);
      assert s[..|s| - 1] == NatText(n / 10);
    }
  }

  function RuleText(r: Rule): string
  {
    match r
    case Cycle => "cycle"
    case Direct => "direct"
    case SynonymChain => "synonym_chain"
    case DoubleSynonym => "double_synonym"
    case NoRule => "none"
  }

  /** The `match_type` `process_single_word` returns. */
  function KindText(k: WordKind): string
  {
    match k
    case Exact => "exact"
    case ByRule(r) => RuleText(r)
    case Morphological => "morphological"
    case MorphRule(r) => "morph_" + RuleText(r)
    case Fuzzy(key) => "fuzzy_" + key
    case NoMatch => "none"
  }

  /** `f"{c:.2f}"`, rounding half up on the exact value. */
  function ConfidenceText(c: real): (s: string)
    ensures s != [] && IsDigit(s[|s| - 1])
  {
    var h := (c * 100.0 + 0.5).Floor;
    var a := if h < 0 then -h else h;
    (if h < 0 then "-" else "") + NatText(a / 100) + "." + [Digit((a / 10) % 10), Digit(a % 10)]
  }

  function PhraseTag(n: Pos): string { "exact_" + NatText(n) + "gram" }

  function TagText(t: Tag): string
  {
    match t
    case Preserved => "preserved"
    case Gram(n) => PhraseTag(n)
    case GramPart(n) => PhraseTag(n) + "_part"
    case Scored(k, c) => KindText(k) + "_" + ConfidenceText(c)
    case Reverse => "reverse"
    case Unmatched => "none"
  }

  /** Which counter the reconstruction loop bumps for a word token's tag. */
  datatype Count = CountExact | CountSynonym | CountMorphological | CountLightweight | CountPhrase(length: Option<nat>) | NotCounted

  /** The `if`/`elif` chain on `match_type`, `int(match_type[6:-4])` included. */
  function Classify(tag: string): Count
  {
    if tag == "exact" then CountExact
    else if tag == "synonym_rbmt" then CountSynonym
    else if tag == "morphological" then CountMorphological
    else if tag == "lightweight" then CountLightweight
    else if StartsWith(tag, "exact_") && EndsWith(tag, "gram") then
      CountPhrase(if |tag| >= 10 then ParseNat(tag[6..|tag| - 4]) else None)
    else NotCounted
  }

  lemma NotAListedType(s: string)
    requires |s| > 13 || (s != [] && IsDigit(s[|s| - 1]))
    ensures s != "exact" && s != "synonym_rbmt" && s != "morphological" && s != "lightweight"
  {
    if s != [] && IsDigit(s[|s| - 1]) {
      assert "exact"[4] == 't' && "synonym_rbmt"[11] == 't' && "morphological"[12] == 'l' && "lightweight"[10] == 't';
    }
  }

  /**
   * Only phrase tags are ever counted, and they give back their own length:
   * a single-word tag carries its confidence as a last digit, so it is none
   * of the four names the loop tests for and does not end in "gram".
   */
  lemma OnlyPhrasesCount(t: Tag)
    ensures Classify(TagText(t)) == if t.Gram? then CountPhrase(Some(t.n)) else NotCounted
  {
    var s := TagText(t);
    match t
    case Preserved =>
    case Reverse =>
    case Unmatched =>
    case Gram(n) =>
      NatTextRoundTrip(n);
      var digits := NatText(n);
      assert s == "exact_" + digits + "gram";
      assert s[..6] == "exact_" && s[|s| - 4..] == "gram";
      assert s[6..|s| - 4] == digits;
      assert s[5] == '_';
      assert "synonym_rbmt"[5] == 'y' && "morphological"[5] == 'o' && "lightweight"[5] == 'w';
    case GramPart(n) =>
      assert |s| > 13;
      NotAListedType(s);
      assert s[|s| - 1] == 't';
      assert !EndsWith(s, "gram");
    case Scored(k, c) =>
      var conf := ConfidenceText(c);
      assert s == KindText(k) + "_" + conf;
      assert s[|s| - 1] == conf[|conf| - 1];
      NotAListedType(s);
      assert !EndsWith(s, "gram") by {
        assert IsDigit(s[|s| - 1]);
      }
  }
}
