/**
 * The Indonesian word analysis of webroot/server/main.py:
 * `strip_indonesian_suffix`, `find_compound_phrases` and the unranked
 * `analyze_morphology`, which also adds synonyms from a fixed table.
 */
module WebrootMorphology {
  import opened Text

  // ---------------------------------------------------------------------
  // strip_indonesian_suffix

  /** The suffixes `strip_indonesian_suffix` tries, in order. */
  const StripSuffixes: seq<string> := ["ku", "mu", "nya", "kan", "i"]

  /** Suffix `j` of `sfx` ends `w` and leaves a stem longer than one character. */
  predicate StripsAt(w: string, sfx: seq<string>, j: nat)
    requires j < |sfx|
  {
    EndsWith(w, sfx[j]) && |w| - |sfx[j]| > 1
  }

  /** The loop over the suffixes from `j` on: the first that strips gives the stem. */
  function StripFrom(w: string, sfx: seq<string>, j: nat): string
    requires j <= |sfx|
    decreases |sfx| - j
  {
    if j == |sfx| then w
    else if StripsAt(w, sfx, j) then w[..|w| - |sfx[j]|]
    else StripFrom(w, sfx, j + 1)
  }

  /** `strip_indonesian_suffix(word)` */
  function StripIndonesianSuffix(word: string): string
  {
    StripFrom(Lower(word), StripSuffixes, 0)
  }

  /** The loop leaves the word as it is exactly when no suffix from `j` on strips it. */
  lemma {:induction false} StripFromKeeps(w: string, sfx: seq<string>, j: nat)
    requires j <= |sfx| && forall i :: 0 <= i < |sfx| ==> sfx[i] != []
    ensures StripFrom(w, sfx, j) == w <==> forall i :: j <= i < |sfx| ==> !StripsAt(w, sfx, i)
    decreases |sfx| - j
  {
    if j < |sfx| {
      if StripsAt(w, sfx, j) {
        assert |StripFrom(w, sfx, j)| < |w|;
      } else {
        StripFromKeeps(w, sfx, j + 1);
      }
    }
  }

  /** When the loop cuts a suffix, it is the first one from `j` on that strips the word. */
  lemma {:induction false} StripFromFinds(w: string, sfx: seq<string>, j: nat)
    requires j <= |sfx|
    ensures StripFrom(w, sfx, j) != w ==>
      exists i :: j <= i < |sfx| && StripsAt(w, sfx, i) && StripFrom(w, sfx, j) + sfx[i] == w
                  && (forall i' :: j <= i' < i ==> !StripsAt(w, sfx, i'))
    decreases |sfx| - j
  {
    if j < |sfx| {
      if StripsAt(w, sfx, j) {
        assert StripFrom(w, sfx, j) + sfx[j] == w;
      } else {
        StripFromFinds(w, sfx, j + 1);
      }
    }
  }

  /**
   * The word comes back lower-cased and unchanged unless one of ku, mu, nya,
   * kan, i ends it and leaves a stem of two or more characters; then the
   * first such suffix is cut off, and the stem plus that suffix is the
   * lower-cased word.
   */
  lemma StripIndonesianSuffixSpec(word: string)
    ensures var w, r := Lower(word), StripIndonesianSuffix(word);
      && (r == w <==> forall i :: 0 <= i < |StripSuffixes| ==> !StripsAt(w, StripSuffixes, i))
      && (r != w ==> exists i :: 0 <= i < |StripSuffixes| && StripsAt(w, StripSuffixes, i) && |r| > 1
                                && r + StripSuffixes[i] == w
                                && forall i' :: 0 <= i' < i ==> !StripsAt(w, StripSuffixes, i'))
  {
    StripFromKeeps(Lower(word), StripSuffixes, 0);
    StripFromFinds(Lower(word), StripSuffixes, 0);
  }

  // ---------------------------------------------------------------------
  // find_compound_phrases

  const CommonPhrases: set<string> := {"selamat pagi", "selamat siang", "selamat malam", "selamat datang", "terima kasih"}

  /** An entry of the result: the first word index, the number of words, and the phrase or word. */
  datatype Piece = Piece(start: nat, length: nat, phrase: string)

  /** The two-word phrase starting at word `i`. */
  function Pair(words: seq<string>, i: nat): string
    requires i + 1 < |words|
  {
    words[i] + " " + words[i + 1]
  }

  /** The greedy pairing from word `i` on. */
  function CompoundFrom(words: seq<string>, phrases: set<string>, i: nat): seq<Piece>
    decreases |words| - i
  {
    if i >= |words| then []
    else if i + 1 < |words| && Pair(words, i) in phrases then [Piece(i, 2, Pair(words, i))] + CompoundFrom(words, phrases, i + 2)
    else [Piece(i, 1, words[i])] + CompoundFrom(words, phrases, i + 1)
  }

  /** `find_compound_phrases(text)` */
  method FindCompoundPhrases(text: string) returns (pieces: seq<Piece>)
    ensures pieces == CompoundFrom(Split(Lower(text)), CommonPhrases, 0)
  {
    var words := Split(Lower(text));
    pieces := ScanCompounds(words, CommonPhrases);
  }

  /** The loop of `find_compound_phrases`, for a set of listed phrases. */
  method ScanCompounds(words: seq<string>, phrases: set<string>) returns (pieces: seq<Piece>)
    ensures pieces == CompoundFrom(words, phrases, 0)
  {
    pieces := [];
    var i := 0;
    while i < |words|
      invariant i <= |words| + 1
      invariant pieces + CompoundFrom(words, phrases, i) == CompoundFrom(words, phrases, 0)
      decreases |words| - i
    {
      if i + 1 < |words| {
        var potentialPhrase := words[i] + " " + words[i + 1];
        if potentialPhrase in phrases {
          AppendPiece(pieces, Piece(i, 2, potentialPhrase), CompoundFrom(words, phrases, i + 2));
          pieces := pieces + [Piece(i, 2, potentialPhrase)];
          i := i + 2;
          continue;
        }
      }
      AppendPiece(pieces, Piece(i, 1, words[i]), CompoundFrom(words, phrases, i + 1));
      pieces := pieces + [Piece(i, 1, words[i])];
      i := i + 1;
    }
    assert CompoundFrom(words, phrases, i) == [];
  }

  lemma AppendPiece(pieces: seq<Piece>, p: Piece, rest: seq<Piece>)
    ensures (pieces + [p]) + rest == pieces + ([p] + rest)
  {
  }

  function SumLengths(ps: seq<Piece>): nat
  {
    if ps == [] then 0 else ps[0].length + SumLengths(ps[1..])
  }

  /** What one entry says about the words: a listed pair, or a single word that starts no listed pair. */
  predicate PieceFits(words: seq<string>, phrases: set<string>, p: Piece)
  {
    && p.start + p.length <= |words|
    && (p.length == 1 || p.length == 2)
    && (p.length == 2 ==> p.phrase == Pair(words, p.start) && p.phrase in phrases)
    && (p.length == 1 ==> p.phrase == words[p.start]
                          && (p.start + 1 < |words| ==> Pair(words, p.start) !in phrases))
  }

  /** The first piece from word `i` on fits the words. */
  lemma HeadFits(words: seq<string>, phrases: set<string>, i: nat)
    requires i < |words|
    ensures var ps := CompoundFrom(words, phrases, i);
      ps != [] && ps[0].start == i && PieceFits(words, phrases, ps[0])
      && ps[1..] == CompoundFrom(words, phrases, i + ps[0].length)
  {
  }

  /** The first piece from word `i` on starts there, and the rest go on from its end. */
  lemma HeadNext(words: seq<string>, phrases: set<string>, i: nat)
    requires i < |words|
    ensures var ps := CompoundFrom(words, phrases, i);
      ps != [] && ps[0].start == i && ps[1..] == CompoundFrom(words, phrases, i + ps[0].length)
  {
  }

  /**
   * The entries from word `i` on cover the words `i..n-1`: the first starts
   * at `i`, the last ends at `n`, and their lengths add up to `n - i`.
   */
  lemma {:induction false} CompoundCovers(words: seq<string>, phrases: set<string>, i: nat)
    requires i <= |words|
    ensures var ps := CompoundFrom(words, phrases, i);
      && (ps == [] <==> i == |words|)
      && (ps != [] ==> ps[0].start == i && ps[|ps| - 1].start + ps[|ps| - 1].length == |words|)
      && SumLengths(ps) == |words| - i
    decreases |words| - i
  {
    if i < |words| {
      var ps := CompoundFrom(words, phrases, i);
      HeadFits(words, phrases, i);
      CompoundCovers(words, phrases, i + ps[0].length);
      if |ps| > 1 {
        assert ps[|ps| - 1] == ps[1..][|ps| - 2];
      }
    }
  }

  /** Each entry starts where the previous one ends. */
  predicate Contiguous(ps: seq<Piece>)
  {
    forall k :: 0 <= k < |ps| - 1 ==> ps[k + 1].start == ps[k].start + ps[k].length
  }

  lemma TailContiguous(ps: seq<Piece>)
    requires ps != [] && Contiguous(ps[1..]) && (|ps| > 1 ==> ps[1].start == ps[0].start + ps[0].length)
    ensures Contiguous(ps)
  {
    forall k | 0 <= k < |ps| - 1 ensures ps[k + 1].start == ps[k].start + ps[k].length {
      if k > 0 {
        assert ps[k + 1] == ps[1..][k] && ps[k] == ps[1..][k - 1];
      }
    }
  }

  lemma {:induction false} CompoundContiguous(words: seq<string>, phrases: set<string>, i: nat)
    requires i <= |words|
    ensures Contiguous(CompoundFrom(words, phrases, i))
    decreases |words| - i
  {
    if i < |words| {
      var ps := CompoundFrom(words, phrases, i);
      HeadNext(words, phrases, i);
      var rest := ps[1..];
      var next := i + ps[0].length;
      CompoundContiguous(words, phrases, next);
      if next < |words| {
        HeadNext(words, phrases, next);
      }
      if |ps| > 1 {
        assert ps[1] == rest[0];
      }
      TailContiguous(ps);
    }
  }

  /** Every entry from word `i` on fits the words. */
  lemma {:induction false} CompoundPiecesFit(words: seq<string>, phrases: set<string>, i: nat)
    requires i <= |words|
    ensures var ps := CompoundFrom(words, phrases, i);
      forall k :: 0 <= k < |ps| ==> PieceFits(words, phrases, ps[k])
    decreases |words| - i
  {
    if i < |words| {
      var ps := CompoundFrom(words, phrases, i);
      HeadFits(words, phrases, i);
      var rest := ps[1..];
      CompoundPiecesFit(words, phrases, i + ps[0].length);
      forall k | 0 <= k < |ps| ensures PieceFits(words, phrases, ps[k]) {
        if k > 0 {
          assert ps[k] == rest[k - 1];
        }
      }
    }
  }

  /** The pieces of `text` tile its lower-cased words. */
  lemma FindCompoundPhrasesTiles(text: string)
    ensures var words := Split(Lower(text));
      var ps := CompoundFrom(words, CommonPhrases, 0);
      && SumLengths(ps) == |words|
      && (ps != [] ==> ps[0].start == 0 && ps[|ps| - 1].start + ps[|ps| - 1].length == |words|)
      && Contiguous(ps)
      && (forall k :: 0 <= k < |ps| ==> PieceFits(words, CommonPhrases, ps[k]))
  {
    CompoundCovers(Split(Lower(text)), CommonPhrases, 0);
    CompoundContiguous(Split(Lower(text)), CommonPhrases, 0);
    CompoundPiecesFit(Split(Lower(text)), CommonPhrases, 0);
  }

  // ---------------------------------------------------------------------
  // analyze_morphology
  //
  // The analysis is stated for any suffix list `sfx`, prefix list `pfx` and
  // synonym table `syn`; the source's own lists and table are the constants
  // below.

  const MorphPrefixes: seq<string> := ["me", "ber", "di", "ter", "pe", "se"]
  const MorphSuffixes: seq<string> := ["kan", "i", "an", "nya", "ku", "mu"]

  /** The synonym table: each listed word adds the two others. */
  const Synonyms: map<string, seq<string>> := map[
    "kawan" := ["teman", "sahabat"],
    "teman" := ["kawan", "sahabat"],
    "sahabat" := ["teman", "kawan"]
  ]

  /** Suffix `j` ends `w` and leaves a base longer than one character. */
  predicate CutsSuffix(w: string, sfx: seq<string>, j: nat)
    requires j < |sfx|
  {
    EndsWith(w, sfx[j]) && |w| - |sfx[j]| > 1
  }

  function SuffixCut(w: string, sfx: seq<string>, j: nat): string
    requires j < |sfx| && CutsSuffix(w, sfx, j)
  {
    w[..|w| - |sfx[j]|]
  }

  predicate CutsPrefix(w: string, pfx: seq<string>, j: nat)
    requires j < |pfx|
  {
    StartsWith(w, pfx[j]) && |w| - |pfx[j]| > 1
  }

  function PrefixCut(w: string, pfx: seq<string>, j: nat): string
    requires j < |pfx| && CutsPrefix(w, pfx, j)
  {
    w[|pfx[j]|..]
  }

  /** The inner loop over the suffixes `..k` for a base: the deeper bases it appends. */
  function DeeperUpTo(base: string, sfx: seq<string>, k: nat): seq<string>
    requires k <= |sfx|
  {
    if k == 0 then []
    else DeeperUpTo(base, sfx, k - 1) + (if CutsSuffix(base, sfx, k - 1) then [SuffixCut(base, sfx, k - 1)] else [])
  }

  /** One pass of the outer suffix loop: the base and its deeper bases. */
  function SuffixStep(w: string, sfx: seq<string>, j: nat): seq<string>
    requires j < |sfx|
  {
    if CutsSuffix(w, sfx, j) then [SuffixCut(w, sfx, j)] + DeeperUpTo(SuffixCut(w, sfx, j), sfx, |sfx|) else []
  }

  /** The bases the outer suffix loop appends for the suffixes `..j`. */
  function SuffixUpTo(w: string, sfx: seq<string>, j: nat): seq<string>
    requires j <= |sfx|
  {
    if j == 0 then [] else SuffixUpTo(w, sfx, j - 1) + SuffixStep(w, sfx, j - 1)
  }

  /** The bases the prefix loop appends for the prefixes `..j`. */
  function PrefixUpTo(w: string, pfx: seq<string>, j: nat): seq<string>
    requires j <= |pfx|
  {
    if j == 0 then [] else PrefixUpTo(w, pfx, j - 1) + (if CutsPrefix(w, pfx, j - 1) then [PrefixCut(w, pfx, j - 1)] else [])
  }

  /** `base_forms` after both affix loops. */
  function BaseForms(w: string, sfx: seq<string>, pfx: seq<string>): seq<string>
  {
    [w] + SuffixUpTo(w, sfx, |sfx|) + PrefixUpTo(w, pfx, |pfx|)
  }

  function SynonymsOf(form: string, syn: map<string, seq<string>>): seq<string>
  {
    if form in syn then syn[form] else []
  }

  /** `extended_forms` after the synonyms of `forms[..i]` have been added. */
  function ExtendUpTo(forms: seq<string>, syn: map<string, seq<string>>, i: nat): seq<string>
    requires i <= |forms|
  {
    if i == 0 then forms else ExtendUpTo(forms, syn, i - 1) + SynonymsOf(forms[i - 1], syn)
  }

  /** `set(extended_forms)` for the lower-cased word `w`. */
  ghost function FormsOf(w: string, sfx: seq<string>, pfx: seq<string>, syn: map<string, seq<string>>): set<string>
  {
    var base := BaseForms(w, sfx, pfx);
    set x | x in ExtendUpTo(base, syn, |base|)
  }

  /** The forms `analyze_morphology(word)` returns, as a set. */
  ghost function MorphForms(word: string): set<string>
  {
    FormsOf(Lower(word), MorphSuffixes, MorphPrefixes, Synonyms)
  }

  /** The nested loop over the suffixes for one base: the deeper bases it appends. */
  method DeeperBases(base: string, sfx: seq<string>) returns (deeper: seq<string>)
    ensures deeper == DeeperUpTo(base, sfx, |sfx|)
  {
    deeper := [];
    for k := 0 to |sfx|
      invariant deeper == DeeperUpTo(base, sfx, k)
    {
      var otherSuffix := sfx[k];
      if EndsWith(base, otherSuffix) {
        var deeperBase := base[..|base| - |otherSuffix|];
        if |deeperBase| > 1 {
          deeper := deeper + [deeperBase];
        }
      }
    }
  }

  /** The outer suffix loop: the bases for all suffixes, each followed by its deeper bases. */
  method SuffixBases(w: string, sfx: seq<string>) returns (bases: seq<string>)
    ensures bases == SuffixUpTo(w, sfx, |sfx|)
  {
    bases := [];
    for j := 0 to |sfx|
      invariant bases == SuffixUpTo(w, sfx, j)
    {
      var suffix := sfx[j];
      SuffixUpToNext(w, sfx, j);
      if EndsWith(w, suffix) {
        var base := w[..|w| - |suffix|];
        if |base| > 1 {
          var deeper := DeeperBases(base, sfx);
          bases := bases + ([base] + deeper);
        }
      }
    }
  }

  lemma SuffixUpToNext(w: string, sfx: seq<string>, j: nat)
    requires j < |sfx|
    ensures SuffixUpTo(w, sfx, j + 1) == SuffixUpTo(w, sfx, j) + SuffixStep(w, sfx, j)
    ensures !CutsSuffix(w, sfx, j) ==> SuffixUpTo(w, sfx, j + 1) == SuffixUpTo(w, sfx, j)
  {
  }

  /** The prefix loop: the bases for all prefixes. */
  method PrefixBases(w: string, pfx: seq<string>) returns (bases: seq<string>)
    ensures bases == PrefixUpTo(w, pfx, |pfx|)
  {
    bases := [];
    for j := 0 to |pfx|
      invariant bases == PrefixUpTo(w, pfx, j)
    {
      var prefix := pfx[j];
      if StartsWith(w, prefix) {
        var base := w[|prefix|..];
        if |base| > 1 {
          bases := bases + [base];
        }
      }
    }
  }

  /** The synonym loop: `forms` followed by the synonyms of each form, in order. */
  method ExtendForms(forms: seq<string>, syn: map<string, seq<string>>) returns (extended: seq<string>)
    ensures extended == ExtendUpTo(forms, syn, |forms|)
  {
    extended := forms;
    for i := 0 to |forms|
      invariant extended == ExtendUpTo(forms, syn, i)
    {
      var form := forms[i];
      if form in syn {
        extended := extended + syn[form];
      }
    }
  }

  /** `analyze_morphology(word)`; the order of the returned list is that of a set, so none is modelled. */
  method AnalyzeMorphology(word: string) returns (forms: set<string>)
    ensures forms == MorphForms(word)
  {
    var w := Lower(word);
    var suffixBases := SuffixBases(w, MorphSuffixes);
    var prefixBases := PrefixBases(w, MorphPrefixes);
    var baseForms := [w] + suffixBases + prefixBases;
    var extendedForms := ExtendForms(baseForms, Synonyms);
    forms := set x | x in extendedForms;
  }

  /** `x` is `w` with one suffix of `sfx` cut off, leaving two or more characters. */
  ghost predicate SuffixStripped(w: string, sfx: seq<string>, x: string)
  {
    |x| > 1 && exists j :: 0 <= j < |sfx| && x + sfx[j] == w
  }

  /** `x` is `w` with one prefix of `pfx` cut off, leaving two or more characters. */
  ghost predicate PrefixStripped(w: string, pfx: seq<string>, x: string)
  {
    |x| > 1 && exists j :: 0 <= j < |pfx| && pfx[j] + x == w
  }

  /** `x` is `w` itself, or `w` with one prefix or one or two suffixes stripped. */
  ghost predicate IsBaseForm(w: string, sfx: seq<string>, pfx: seq<string>, x: string)
  {
    || x == w
    || SuffixStripped(w, sfx, x)
    || (exists b :: SuffixStripped(w, sfx, b) && SuffixStripped(b, sfx, x))
    || PrefixStripped(w, pfx, x)
  }

  lemma SuffixCutIff(w: string, sfx: seq<string>, j: nat, x: string)
    requires j < |sfx|
    ensures (CutsSuffix(w, sfx, j) && x == SuffixCut(w, sfx, j)) <==> (|x| > 1 && x + sfx[j] == w)
  {
    if |x| > 1 && x + sfx[j] == w {
      assert w[|w| - |sfx[j]|..] == sfx[j];
      assert w[..|w| - |sfx[j]|] == x;
    }
  }

  lemma PrefixCutIff(w: string, pfx: seq<string>, j: nat, x: string)
    requires j < |pfx|
    ensures (CutsPrefix(w, pfx, j) && x == PrefixCut(w, pfx, j)) <==> (|x| > 1 && pfx[j] + x == w)
  {
    if |x| > 1 && pfx[j] + x == w {
      assert w[..|pfx[j]|] == pfx[j];
      assert w[|pfx[j]|..] == x;
    }
    if CutsPrefix(w, pfx, j) && x == PrefixCut(w, pfx, j) {
      assert w == w[..|pfx[j]|] + w[|pfx[j]|..];
    }
  }

  lemma {:induction false} InDeeperUpTo(b: string, sfx: seq<string>, k: nat, x: string)
    requires k <= |sfx|
    ensures x in DeeperUpTo(b, sfx, k) <==> exists i :: 0 <= i < k && |x| > 1 && x + sfx[i] == b
  {
    if k > 0 {
      InDeeperUpTo(b, sfx, k - 1, x);
      SuffixCutIff(b, sfx, k - 1, x);
    }
  }

  /** `x` is appended by the pass of the outer suffix loop for suffix `i`. */
  ghost predicate FromSuffix(w: string, sfx: seq<string>, i: nat, x: string)
    requires i < |sfx|
  {
    CutsSuffix(w, sfx, i) && (x == SuffixCut(w, sfx, i) || SuffixStripped(SuffixCut(w, sfx, i), sfx, x))
  }

  lemma InSuffixStep(w: string, sfx: seq<string>, i: nat, x: string)
    requires i < |sfx|
    ensures x in SuffixStep(w, sfx, i) <==> FromSuffix(w, sfx, i, x)
  {
    if CutsSuffix(w, sfx, i) {
      InDeeperUpTo(SuffixCut(w, sfx, i), sfx, |sfx|, x);
    }
  }

  /** The passes of the outer suffix loop, one per suffix. */
  function SuffixSteps(w: string, sfx: seq<string>): (steps: seq<seq<string>>)
    ensures |steps| == |sfx| && forall i :: 0 <= i < |sfx| ==> steps[i] == SuffixStep(w, sfx, i)
  {
    seq(|sfx|, i requires 0 <= i < |sfx| => SuffixStep(w, sfx, i))
  }

  /** The first `j` parts, concatenated. */
  function Joined(parts: seq<seq<string>>, j: nat): seq<string>
    requires j <= |parts|
  {
    if j == 0 then [] else Joined(parts, j - 1) + parts[j - 1]
  }

  lemma {:induction false} SuffixUpToJoined(w: string, sfx: seq<string>, j: nat)
    requires j <= |sfx|
    ensures SuffixUpTo(w, sfx, j) == Joined(SuffixSteps(w, sfx), j)
  {
    if j > 0 {
      SuffixUpToJoined(w, sfx, j - 1);
    }
  }

  lemma {:induction false} InJoined(parts: seq<seq<string>>, j: nat, x: string)
    requires j <= |parts|
    ensures x in Joined(parts, j) <==> exists i :: 0 <= i < j && x in parts[i]
  {
    if j > 0 {
      InJoined(parts, j - 1, x);
      assert Joined(parts, j) == Joined(parts, j - 1) + parts[j - 1];
    }
  }

  lemma InSuffixUpTo(w: string, sfx: seq<string>, x: string)
    ensures x in SuffixUpTo(w, sfx, |sfx|) <==> exists i :: 0 <= i < |sfx| && x in SuffixSteps(w, sfx)[i]
  {
    SuffixUpToJoined(w, sfx, |sfx|);
    InJoined(SuffixSteps(w, sfx), |sfx|, x);
  }

  lemma {:induction false} InPrefixUpTo(w: string, pfx: seq<string>, j: nat, x: string)
    requires j <= |pfx|
    ensures x in PrefixUpTo(w, pfx, j) <==> exists i :: 0 <= i < j && |x| > 1 && pfx[i] + x == w
  {
    if j > 0 {
      InPrefixUpTo(w, pfx, j - 1, x);
      PrefixCutIff(w, pfx, j - 1, x);
    }
  }

  /** The suffix bases are exactly the forms with one or two suffixes stripped. */
  lemma InSuffixBases(w: string, sfx: seq<string>, x: string)
    ensures x in SuffixUpTo(w, sfx, |sfx|) <==>
      SuffixStripped(w, sfx, x) || exists b :: SuffixStripped(w, sfx, b) && SuffixStripped(b, sfx, x)
  {
    InSuffixUpTo(w, sfx, x);
    var steps := SuffixSteps(w, sfx);
    if SuffixStripped(w, sfx, x) {
      var i :| 0 <= i < |sfx| && x + sfx[i] == w;
      SuffixCutIff(w, sfx, i, x);
      InSuffixStep(w, sfx, i, x);
      assert x in steps[i];
    }
    if exists b :: SuffixStripped(w, sfx, b) && SuffixStripped(b, sfx, x) {
      var b :| SuffixStripped(w, sfx, b) && SuffixStripped(b, sfx, x);
      var i :| 0 <= i < |sfx| && b + sfx[i] == w;
      SuffixCutIff(w, sfx, i, b);
      InSuffixStep(w, sfx, i, x);
      assert x in steps[i];
    }
    if x in SuffixUpTo(w, sfx, |sfx|) {
      var i :| 0 <= i < |sfx| && x in steps[i];
      InSuffixStep(w, sfx, i, x);
      var cut := SuffixCut(w, sfx, i);
      SuffixCutIff(w, sfx, i, cut);
      assert SuffixStripped(w, sfx, cut);
    }
  }

  /** The base forms are exactly the word and its affix-stripped forms. */
  lemma InBaseForms(w: string, sfx: seq<string>, pfx: seq<string>, x: string)
    ensures x in BaseForms(w, sfx, pfx) <==> IsBaseForm(w, sfx, pfx, x)
  {
    InSuffixBases(w, sfx, x);
    InPrefixUpTo(w, pfx, |pfx|, x);
  }

  lemma {:induction false} InExtendUpTo(forms: seq<string>, syn: map<string, seq<string>>, i: nat, x: string)
    requires i <= |forms|
    ensures x in ExtendUpTo(forms, syn, i) <==> x in forms || exists k :: 0 <= k < i && x in SynonymsOf(forms[k], syn)
  {
    if i > 0 {
      InExtendUpTo(forms, syn, i - 1, x);
    }
  }

  /** The forms are exactly the base forms and the table synonyms of any of them. */
  lemma InFormsOf(w: string, sfx: seq<string>, pfx: seq<string>, syn: map<string, seq<string>>, x: string)
    ensures x in FormsOf(w, sfx, pfx, syn) <==>
      IsBaseForm(w, sfx, pfx, x) || exists b :: IsBaseForm(w, sfx, pfx, b) && b in syn && x in syn[b]
  {
    var base := BaseForms(w, sfx, pfx);
    InExtendUpTo(base, syn, |base|, x);
    InBaseForms(w, sfx, pfx, x);
    if exists k :: 0 <= k < |base| && x in SynonymsOf(base[k], syn) {
      var k :| 0 <= k < |base| && x in SynonymsOf(base[k], syn);
      InBaseForms(w, sfx, pfx, base[k]);
    }
    if exists b :: IsBaseForm(w, sfx, pfx, b) && b in syn && x in syn[b] {
      var b :| IsBaseForm(w, sfx, pfx, b) && b in syn && x in syn[b];
      InBaseForms(w, sfx, pfx, b);
      var k :| 0 <= k < |base| && base[k] == b;
      assert x in SynonymsOf(base[k], syn);
    }
  }

  /**
   * The analysis holds exactly the lower-cased word, its forms with one
   * listed prefix or one or two listed suffixes stripped (each at least two
   * characters long), and the table synonyms of any of those; in particular
   * it always holds the lower-cased word.
   */
  lemma MorphFormsMembers(word: string, x: string)
    ensures var w := Lower(word);
      x in MorphForms(word) <==>
        IsBaseForm(w, MorphSuffixes, MorphPrefixes, x)
        || exists b :: IsBaseForm(w, MorphSuffixes, MorphPrefixes, b) && b in Synonyms && x in Synonyms[b]
    ensures Lower(word) in MorphForms(word)
  {
    InFormsOf(Lower(word), MorphSuffixes, MorphPrefixes, Synonyms, x);
    InFormsOf(Lower(word), MorphSuffixes, MorphPrefixes, Synonyms, Lower(word));
  }
}
