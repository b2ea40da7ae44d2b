/**
 * `analyze_morphology` of vercel-deployment/api/translate.py: ranked base
 * forms of an Indonesian word, obtained by stripping listed suffixes (one or
 * two deep) and then one listed prefix, deduplicated by form keeping the
 * highest confidence, and sorted by confidence, highest first (stably).
 *
 * The construction is defined for any suffix and prefix tables; the source's
 * own tables are `Suffixes` and `Prefixes`.
 */
module VercelMorphology {
  import opened Wrappers
  import opened Text

  datatype Affix = Affix(text: string, weight: real)

  /** A candidate base form and its confidence. */
  datatype Candidate = Candidate(form: string, confidence: real)

  const Suffixes: seq<Affix> :=
    [Affix("ku", 0.9), Affix("mu", 0.9), Affix("nya", 0.9), Affix("kan", 0.8), Affix("i", 0.7), Affix("an", 0.7)]

  const Prefixes: seq<Affix> :=
    [Affix("me", 0.8), Affix("ber", 0.8), Affix("di", 0.8), Affix("ter", 0.7), Affix("pe", 0.7), Affix("se", 0.7)]

  /** Every affix is nonempty and weighs more than 0 and at most `maxWeight`. */
  predicate AffixTable(t: seq<Affix>, maxWeight: real)
  {
    forall i :: 0 <= i < |t| ==> |t[i].text| >= 1 && 0.0 < t[i].weight <= maxWeight
  }

  lemma TablesWellFormed()
    ensures AffixTable(Suffixes, 0.9) && AffixTable(Prefixes, 0.8)
  {
  }

  lemma ProductBound(x: real, y: real, bound: real)
    requires 0.0 < x <= 1.0 && 0.0 < y <= bound
    ensures 0.0 < x * y <= bound
  {
    assert x * y <= 1.0 * y;
  }

  // ---------------------------------------------------------------------
  // The candidate list the source builds, pass by pass.

  /** `base[:-len(s)]` when `base` ends with `s` and keeps more than one character. */
  predicate CanStrip(base: string, s: string)
  {
    EndsWith(base, s) && |base| - |s| > 1
  }

  /** The stem of `base` after a second suffix `o`, reached with confidence `conf`. */
  function SecondStrip(base: string, conf: real, o: Affix): seq<Candidate>
  {
    if CanStrip(base, o.text) then [Candidate(base[..|base| - |o.text|], conf * o.weight)] else []
  }

  /** The inner suffix loop over `sfx[..n]`. */
  function DoubleStrips(base: string, conf: real, sfx: seq<Affix>, n: nat): seq<Candidate>
    requires n <= |sfx|
  {
    if n == 0 then [] else DoubleStrips(base, conf, sfx, n - 1) + SecondStrip(base, conf, sfx[n - 1])
  }

  /** What one suffix contributes: its stem, then the stem's double-suffix stems. */
  function SuffixStep(w: string, s: Affix, sfx: seq<Affix>): seq<Candidate>
  {
    if CanStrip(w, s.text) then
      var base := w[..|w| - |s.text|];
      [Candidate(base, s.weight)] + DoubleStrips(base, s.weight, sfx, |sfx|)
    else []
  }

  /** `base_forms` after the outer suffix loop has tried `sfx[..n]`. */
  function SuffixForms(w: string, sfx: seq<Affix>, n: nat): seq<Candidate>
    requires n <= |sfx|
  {
    if n == 0 then [Candidate(w, 1.0)] else SuffixForms(w, sfx, n - 1) + SuffixStep(w, sfx[n - 1], sfx)
  }

  /** Prefix `p` stripped from one form. */
  function PrefixStrip(f: Candidate, p: Affix): seq<Candidate>
  {
    if StartsWith(f.form, p.text) && |f.form| - |p.text| > 1
    then [Candidate(f.form[|p.text|..], f.confidence * p.weight)] else []
  }

  /** One prefix tried on `forms[..m]`. */
  function PrefixStep(forms: seq<Candidate>, p: Affix, m: nat): seq<Candidate>
    requires m <= |forms|
  {
    if m == 0 then [] else PrefixStep(forms, p, m - 1) + PrefixStrip(forms[m - 1], p)
  }

  /** `base_forms` after the prefix loop has tried `pfx[..n]` on the suffix pass's `forms`. */
  function PrefixForms(forms: seq<Candidate>, pfx: seq<Affix>, n: nat): seq<Candidate>
    requires n <= |pfx|
  {
    if n == 0 then forms else PrefixForms(forms, pfx, n - 1) + PrefixStep(forms, pfx[n - 1], |forms|)
  }

  /** `base_forms` after both passes, before deduplication. */
  function Forms(w: string, sfx: seq<Affix>, pfx: seq<Affix>): seq<Candidate>
  {
    PrefixForms(SuffixForms(w, sfx, |sfx|), pfx, |pfx|)
  }

  // ---------------------------------------------------------------------
  // Deduplication (the `seen` dictionary, in insertion order) and sorting.

  /** Position of `form` in `seen`. */
  function FormIndex(seen: seq<Candidate>, form: string): (r: Option<nat>)
    ensures r.None? <==> forall k :: 0 <= k < |seen| ==> seen[k].form != form
    ensures r.Some? ==> r.value < |seen| && seen[r.value].form == form
  {
    if seen == [] then None
    else if seen[0].form == form then Some(0)
    else
      match FormIndex(seen[1..], form)
      case None => None
      case Some(k) => Some(k + 1)
  }

  /** `if form not in seen or conf > seen[form]: seen[form] = conf` */
  function Record(seen: seq<Candidate>, c: Candidate): seq<Candidate>
  {
    match FormIndex(seen, c.form)
    case None => seen + [c]
    case Some(j) => if c.confidence > seen[j].confidence then seen[j := c] else seen
  }

  /** `seen` after the first `n` candidates. */
  function BestByForm(cs: seq<Candidate>, n: nat): seq<Candidate>
    requires n <= |cs|
  {
    if n == 0 then [] else Record(BestByForm(cs, n - 1), cs[n - 1])
  }

  /** Insert `c` after every element of confidence at least its own. */
  function InsertByConfidence(sorted: seq<Candidate>, c: Candidate): seq<Candidate>
  {
    if sorted == [] then [c]
    else if sorted[0].confidence < c.confidence then [c] + sorted
    else [sorted[0]] + InsertByConfidence(sorted[1..], c)
  }

  /** `sorted(..., key=confidence, reverse=True)`: a stable sort, highest confidence first. */
  function SortByConfidence(cs: seq<Candidate>): seq<Candidate>
  {
    if cs == [] then [] else InsertByConfidence(SortByConfidence(cs[..|cs| - 1]), cs[|cs| - 1])
  }

  /** Deduplicated, then sorted. */
  function Rank(forms: seq<Candidate>): seq<Candidate>
  {
    SortByConfidence(BestByForm(forms, |forms|))
  }

  /** The result of `analyze_morphology(word)`. */
  function Analysis(word: string): seq<Candidate>
  {
    Rank(Forms(Lower(word), Suffixes, Prefixes))
  }

  // ---------------------------------------------------------------------
  // The source's loops.

  /** The inner suffix loop: stems of `base` after a second suffix. */
  method SecondSuffixes(base: string, conf: real) returns (extra: seq<Candidate>)
    ensures extra == DoubleStrips(base, conf, Suffixes, |Suffixes|)
  {
    extra := [];
    for j := 0 to |Suffixes|
      invariant extra == DoubleStrips(base, conf, Suffixes, j)
    {
      var other := Suffixes[j];
      if EndsWith(base, other.text) {
        var deeper := base[..|base| - |other.text|];
        if |deeper| > 1 {
          var c := Candidate(deeper, conf * other.weight);
          assert SecondStrip(base, conf, other)[0] == c;
          extra := extra + [c];
        }
      }
    }
  }

  /** The suffix pass: `base_forms` starts as `[(word, 1.0)]`. */
  method SuffixPass(w: string) returns (baseForms: seq<Candidate>)
    ensures baseForms == SuffixForms(w, Suffixes, |Suffixes|)
  {
    baseForms := [Candidate(w, 1.0)];
    for i := 0 to |Suffixes|
      invariant baseForms == SuffixForms(w, Suffixes, i)
    {
      var suffix := Suffixes[i];
      if EndsWith(w, suffix.text) {
        var base := w[..|w| - |suffix.text|];
        if |base| > 1 {
          var extra := SecondSuffixes(base, suffix.weight);
          baseForms := baseForms + ([Candidate(base, suffix.weight)] + extra);
        }
      }
    }
  }

  /** The inner prefix loop: `prefix` tried on every form. */
  method PrefixOnForms(wordForms: seq<Candidate>, prefix: Affix) returns (extra: seq<Candidate>)
    ensures extra == PrefixStep(wordForms, prefix, |wordForms|)
  {
    extra := [];
    for j := 0 to |wordForms|
      invariant extra == PrefixStep(wordForms, prefix, j)
    {
      var f := wordForms[j];
      if StartsWith(f.form, prefix.text) {
        var stripped := f.form[|prefix.text|..];
        if |stripped| > 1 {
          var c := Candidate(stripped, f.confidence * prefix.weight);
          assert PrefixStrip(f, prefix)[0] == c;
          extra := extra + [c];
        }
      }
    }
  }

  /** The prefix pass over a copy of the suffix pass's forms. */
  method PrefixPass(wordForms: seq<Candidate>) returns (baseForms: seq<Candidate>)
    ensures baseForms == PrefixForms(wordForms, Prefixes, |Prefixes|)
  {
    baseForms := wordForms;
    for i := 0 to |Prefixes|
      invariant baseForms == PrefixForms(wordForms, Prefixes, i)
    {
      var extra := PrefixOnForms(wordForms, Prefixes[i]);
      baseForms := baseForms + extra;
    }
  }

  /** The `seen` loop. */
  method Deduplicate(forms: seq<Candidate>) returns (seen: seq<Candidate>)
    ensures seen == BestByForm(forms, |forms|)
  {
    seen := [];
    for i := 0 to |forms|
      invariant seen == BestByForm(forms, i)
    {
      var c := forms[i];
      match FormIndex(seen, c.form)
      case None =>
        seen := seen + [c];
      case Some(j) =>
        if c.confidence > seen[j].confidence {
          seen := seen[j := c];
        }
    }
  }

  method AnalyzeMorphology(word: string) returns (ranked: seq<Candidate>)
    ensures ranked == Analysis(word)
  {
    var w := Lower(word);
    var initial := SuffixPass(w);
    var forms := PrefixPass(initial);
    var seen := Deduplicate(forms);
    ranked := SortByConfidence(seen);
  }


  // ---------------------------------------------------------------------
  // Where the candidates come from.

  /** Strip `sfx[i]`, or nothing when `i == |sfx|`. */
  function StripSuffixAt(w: string, sfx: seq<Affix>, i: nat): Option<string>
    requires i <= |sfx|
  {
    if i == |sfx| then Some(w)
    else if EndsWith(w, sfx[i].text) then Some(w[..|w| - |sfx[i].text|])
    else None
  }

  /** Strip `pfx[i]`, or nothing when `i == |pfx|`. */
  function StripPrefixAt(w: string, pfx: seq<Affix>, i: nat): Option<string>
    requires i <= |pfx|
  {
    if i == |pfx| then Some(w)
    else if StartsWith(w, pfx[i].text) then Some(w[|pfx[i].text|..])
    else None
  }

  /** Up to two suffixes, then up to one prefix, stripped from `w`. */
  function Derivation(w: string, sfx: seq<Affix>, pfx: seq<Affix>, s1: nat, s2: nat, p: nat): Option<string>
    requires s1 <= |sfx| && s2 <= |sfx| && p <= |pfx|
  {
    match StripSuffixAt(w, sfx, s1)
    case None => None
    case Some(m1) =>
      match StripSuffixAt(m1, sfx, s2)
      case None => None
      case Some(m2) => StripPrefixAt(m2, pfx, p)
  }

  ghost predicate Derived(w: string, sfx: seq<Affix>, pfx: seq<Affix>, f: string, prefixed: bool)
  {
    exists s1: nat, s2: nat, p: nat ::
      s1 <= |sfx| && s2 <= |sfx| && p <= |pfx| && (prefixed || p == |pfx|)
      && Derivation(w, sfx, pfx, s1, s2, p) == Some(f)
  }

  /** A proper stem of `w`: shorter, of two letters or more, derived by the tables, weighing at most 0.9. */
  ghost predicate Stem(w: string, sfx: seq<Affix>, pfx: seq<Affix>, c: Candidate, prefixed: bool)
  {
    2 <= |c.form| < |w| && 0.0 < c.confidence <= 0.9 && Derived(w, sfx, pfx, c.form, prefixed)
  }

  /** The word itself with confidence 1.0, followed by proper stems only. */
  ghost predicate WordThenStems(w: string, sfx: seq<Affix>, pfx: seq<Affix>, forms: seq<Candidate>, prefixed: bool)
  {
    |forms| >= 1 && forms[0] == Candidate(w, 1.0)
    && forall k :: 1 <= k < |forms| ==> Stem(w, sfx, pfx, forms[k], prefixed)
  }

  lemma {:induction false} DoubleStripsAreStems(w: string, sfx: seq<Affix>, pfx: seq<Affix>, i: nat, n: nat)
    requires AffixTable(sfx, 0.9) && i < |sfx| && n <= |sfx| && CanStrip(w, sfx[i].text)
    ensures forall c :: c in DoubleStrips(w[..|w| - |sfx[i].text|], sfx[i].weight, sfx, n) ==> Stem(w, sfx, pfx, c, false)
  {
    var base := w[..|w| - |sfx[i].text|];
    if n > 0 {
      DoubleStripsAreStems(w, sfx, pfx, i, n - 1);
      var o := sfx[n - 1];
      if CanStrip(base, o.text) {
        var c := Candidate(base[..|base| - |o.text|], sfx[i].weight * o.weight);
        assert SecondStrip(base, sfx[i].weight, o)[0] == c;
        assert StripSuffixAt(w, sfx, i) == Some(base);
        assert StripSuffixAt(base, sfx, n - 1) == Some(c.form);
        assert Derivation(w, sfx, pfx, i, n - 1, |pfx|) == Some(c.form);
        ProductBound(sfx[i].weight, o.weight, 0.9);
      }
    }
  }

  lemma AppendStems(w: string, sfx: seq<Affix>, pfx: seq<Affix>, before: seq<Candidate>, step: seq<Candidate>, prefixed: bool)
    requires WordThenStems(w, sfx, pfx, before, prefixed)
    requires forall c :: c in step ==> Stem(w, sfx, pfx, c, prefixed)
    ensures WordThenStems(w, sfx, pfx, before + step, prefixed)
  {
    forall k | |before| <= k < |before| + |step|
      ensures Stem(w, sfx, pfx, (before + step)[k], prefixed)
    {
      assert (before + step)[k] == step[k - |before|];
    }
  }

  lemma SuffixStepAreStems(w: string, sfx: seq<Affix>, pfx: seq<Affix>, i: nat)
    requires AffixTable(sfx, 0.9) && i < |sfx|
    ensures forall c :: c in SuffixStep(w, sfx[i], sfx) ==> Stem(w, sfx, pfx, c, false)
  {
    var s := sfx[i];
    if CanStrip(w, s.text) {
      var base := w[..|w| - |s.text|];
      DoubleStripsAreStems(w, sfx, pfx, i, |sfx|);
      assert StripSuffixAt(w, sfx, i) == Some(base);
      assert Derivation(w, sfx, pfx, i, |sfx|, |pfx|) == Some(base);
      assert Stem(w, sfx, pfx, Candidate(base, s.weight), false);
    }
  }

  lemma {:induction false} SuffixFormsShape(w: string, sfx: seq<Affix>, pfx: seq<Affix>, n: nat)
    requires AffixTable(sfx, 0.9) && n <= |sfx|
    ensures WordThenStems(w, sfx, pfx, SuffixForms(w, sfx, n), false)
  {
    if n > 0 {
      SuffixFormsShape(w, sfx, pfx, n - 1);
      SuffixStepAreStems(w, sfx, pfx, n - 1);
      AppendStems(w, sfx, pfx, SuffixForms(w, sfx, n - 1), SuffixStep(w, sfx[n - 1], sfx), false);
    }
  }

  lemma {:induction false} PrefixStepAreStems(w: string, sfx: seq<Affix>, pfx: seq<Affix>, forms: seq<Candidate>, i: nat, m: nat)
    requires AffixTable(pfx, 0.9) && i < |pfx| && m <= |forms|
    requires WordThenStems(w, sfx, pfx, forms, false)
    ensures forall c :: c in PrefixStep(forms, pfx[i], m) ==> Stem(w, sfx, pfx, c, true)
  {
    if m > 0 {
      PrefixStepAreStems(w, sfx, pfx, forms, i, m - 1);
      PrefixStripIsStem(w, sfx, pfx, forms, i, m - 1);
      AllStemsAppend(w, sfx, pfx, PrefixStep(forms, pfx[i], m - 1), PrefixStrip(forms[m - 1], pfx[i]), true);
    }
  }

  /** Prefix `i` cut off `forms[m]` leaves a prefixed stem. */
  lemma PrefixStripIsStem(w: string, sfx: seq<Affix>, pfx: seq<Affix>, forms: seq<Candidate>, i: nat, m: nat)
    requires AffixTable(pfx, 0.9) && i < |pfx| && m < |forms|
    requires WordThenStems(w, sfx, pfx, forms, false)
    ensures forall c :: c in PrefixStrip(forms[m], pfx[i]) ==> Stem(w, sfx, pfx, c, true)
  {
    var p := pfx[i];
    var f := forms[m];
    if StartsWith(f.form, p.text) && |f.form| - |p.text| > 1 {
      var c := Candidate(f.form[|p.text|..], f.confidence * p.weight);
      assert PrefixStrip(f, p)[0] == c;
      assert StripPrefixAt(f.form, pfx, i) == Some(c.form);
      if m == 0 {
        assert StripSuffixAt(w, sfx, |sfx|) == Some(w);
        assert Derivation(w, sfx, pfx, |sfx|, |sfx|, i) == Some(c.form);
      } else {
        assert Stem(w, sfx, pfx, f, false);
        var s1: nat, s2: nat, q: nat :| s1 <= |sfx| && s2 <= |sfx| && q == |pfx|
          && Derivation(w, sfx, pfx, s1, s2, q) == Some(f.form);
        assert Derivation(w, sfx, pfx, s1, s2, i) == Some(c.form);
      }
      ProductBound(f.confidence, p.weight, 0.9);
    }
  }

  lemma AllStemsAppend(w: string, sfx: seq<Affix>, pfx: seq<Affix>, a: seq<Candidate>, b: seq<Candidate>, prefixed: bool)
    requires forall c :: c in a ==> Stem(w, sfx, pfx, c, prefixed)
    requires forall c :: c in b ==> Stem(w, sfx, pfx, c, prefixed)
    ensures forall c :: c in a + b ==> Stem(w, sfx, pfx, c, prefixed)
  {
  }

  lemma {:induction false} PrefixFormsShape(w: string, sfx: seq<Affix>, pfx: seq<Affix>, forms: seq<Candidate>, n: nat)
    requires AffixTable(pfx, 0.9) && n <= |pfx|
    requires WordThenStems(w, sfx, pfx, forms, false)
    ensures WordThenStems(w, sfx, pfx, PrefixForms(forms, pfx, n), true)
  {
    if n == 0 {
      forall k | 1 <= k < |forms|
        ensures Stem(w, sfx, pfx, forms[k], true)
      {
        assert Stem(w, sfx, pfx, forms[k], false);
      }
    } else {
      PrefixFormsShape(w, sfx, pfx, forms, n - 1);
      var before := PrefixForms(forms, pfx, n - 1);
      var step := PrefixStep(forms, pfx[n - 1], |forms|);
      PrefixStepAreStems(w, sfx, pfx, forms, n - 1, |forms|);
      AppendStems(w, sfx, pfx, before, step, true);
    }
  }

  /** Before deduplication: the word first, then proper stems only. */
  lemma FormsShape(w: string, sfx: seq<Affix>, pfx: seq<Affix>)
    requires AffixTable(sfx, 0.9) && AffixTable(pfx, 0.9)
    ensures WordThenStems(w, sfx, pfx, Forms(w, sfx, pfx), true)
  {
    SuffixFormsShape(w, sfx, pfx, |sfx|);
    PrefixFormsShape(w, sfx, pfx, SuffixForms(w, sfx, |sfx|), |pfx|);
  }

  // ---------------------------------------------------------------------
  // Deduplication and ranking.

  predicate UniqueForms(cs: seq<Candidate>)
  {
    forall i, j :: 0 <= i < j < |cs| ==> cs[i].form != cs[j].form
  }

  predicate SortedByConfidence(cs: seq<Candidate>)
  {
    forall i, j :: 0 <= i < j < |cs| ==> cs[i].confidence >= cs[j].confidence
  }

  predicate HasForm(r: seq<Candidate>, f: string)
  {
    exists j :: 0 <= j < |r| && r[j].form == f
  }

  /** Every form of `cs` is in `r`, with at least the highest confidence `cs` gives it. */
  predicate KeepsBest(r: seq<Candidate>, cs: seq<Candidate>)
  {
    (forall k :: 0 <= k < |cs| ==> HasForm(r, cs[k].form))
    && (forall j, k :: 0 <= j < |r| && 0 <= k < |cs| && r[j].form == cs[k].form ==> r[j].confidence >= cs[k].confidence)
  }

  lemma RecordNew(r: seq<Candidate>, p: seq<Candidate>, c: Candidate)
    requires UniqueForms(r) && KeepsBest(r, p) && FormIndex(r, c.form).None?
    ensures UniqueForms(r + [c]) && KeepsBest(r + [c], p + [c])
  {
    var r' := r + [c];
    var p' := p + [c];
    forall k | 0 <= k < |p'|
      ensures HasForm(r', p'[k].form)
    {
      if k < |p| {
        var j :| 0 <= j < |r| && r[j].form == p[k].form;
        assert r'[j] == r[j] && p'[k] == p[k];
      } else {
        assert r'[|r|] == c && p'[k] == c;
      }
    }
    forall j, k | 0 <= j < |r'| && 0 <= k < |p'| && r'[j].form == p'[k].form
      ensures r'[j].confidence >= p'[k].confidence
    {
      if j == |r| && k < |p| {
        assert false;
      }
    }
  }

  lemma RecordReplace(r: seq<Candidate>, p: seq<Candidate>, c: Candidate, j0: nat)
    requires UniqueForms(r) && KeepsBest(r, p)
    requires j0 < |r| && r[j0].form == c.form && c.confidence > r[j0].confidence
    ensures UniqueForms(r[j0 := c]) && KeepsBest(r[j0 := c], p + [c])
  {
    var r' := r[j0 := c];
    var p' := p + [c];
    forall k | 0 <= k < |p'|
      ensures HasForm(r', p'[k].form)
    {
      if k < |p| {
        var j :| 0 <= j < |r| && r[j].form == p[k].form;
        assert r'[j].form == r[j].form && p'[k] == p[k];
      } else {
        assert r'[j0] == c && p'[k] == c;
      }
    }
    forall j, k | 0 <= j < |r'| && 0 <= k < |p'| && r'[j].form == p'[k].form
      ensures r'[j].confidence >= p'[k].confidence
    {
      if j == j0 && k < |p| {
        assert r[j0].confidence >= p[k].confidence;
      }
    }
  }

  lemma RecordKeep(r: seq<Candidate>, p: seq<Candidate>, c: Candidate, j0: nat)
    requires UniqueForms(r) && KeepsBest(r, p)
    requires j0 < |r| && r[j0].form == c.form && c.confidence <= r[j0].confidence
    ensures KeepsBest(r, p + [c])
  {
    var p' := p + [c];
    forall k | 0 <= k < |p'|
      ensures HasForm(r, p'[k].form)
    {
      if k < |p| {
        assert p'[k] == p[k];
      } else {
        assert r[j0].form == p'[k].form;
      }
    }
    forall j, k | 0 <= j < |r| && 0 <= k < |p'| && r[j].form == p'[k].form
      ensures r[j].confidence >= p'[k].confidence
    {
      if k < |p| {
        assert p'[k] == p[k];
      }
    }
  }

  lemma RecordElements(r: seq<Candidate>, c: Candidate)
    ensures UniqueForms(r) ==> UniqueForms(Record(r, c))
    ensures forall x :: x in Record(r, c) ==> x in r || x == c
  {
    match FormIndex(r, c.form)
    case None =>
    case Some(j0) =>
      if c.confidence > r[j0].confidence {
        forall x | x in r[j0 := c]
          ensures x in r || x == c
        {
          var k :| 0 <= k < |r| && r[j0 := c][k] == x;
        }
      }
  }

  lemma {:induction false} BestByFormElements(cs: seq<Candidate>, n: nat)
    requires n <= |cs|
    ensures UniqueForms(BestByForm(cs, n))
    ensures forall x :: x in BestByForm(cs, n) ==> x in cs
  {
    if n > 0 {
      var r, c := BestByForm(cs, n - 1), cs[n - 1];
      BestByFormElements(cs, n - 1);
      RecordElements(r, c);
      assert BestByForm(cs, n) == Record(r, c);
      forall x | x in Record(r, c) ensures x in cs {
        if x != c {
          assert x in r;
        }
      }
    }
  }

  lemma {:induction false} BestByFormKeepsBest(cs: seq<Candidate>, n: nat)
    requires n <= |cs|
    ensures KeepsBest(BestByForm(cs, n), cs[..n])
  {
    if n > 0 {
      BestByFormKeepsBest(cs, n - 1);
      BestByFormElements(cs, n - 1);
      var r := BestByForm(cs, n - 1);
      var c := cs[n - 1];
      assert cs[..n] == cs[..n - 1] + [c];
      RecordKeepsBest(r, cs[..n - 1], c);
    }
  }

  /** Recording one more candidate keeps the best of each form. */
  lemma RecordKeepsBest(r: seq<Candidate>, p: seq<Candidate>, c: Candidate)
    requires UniqueForms(r) && KeepsBest(r, p)
    ensures KeepsBest(Record(r, c), p + [c])
  {
    match FormIndex(r, c.form)
    case None =>
      RecordNew(r, p, c);
    case Some(j0) =>
      if c.confidence > r[j0].confidence {
        RecordReplace(r, p, c, j0);
      } else {
        RecordKeep(r, p, c, j0);
      }
  }

  lemma {:induction false} InsertElements(s: seq<Candidate>, c: Candidate)
    ensures multiset(InsertByConfidence(s, c)) == multiset(s) + multiset{c}
    ensures forall x :: x in InsertByConfidence(s, c) <==> x in s || x == c
  {
    if s != [] && s[0].confidence >= c.confidence {
      InsertElements(s[1..], c);
      assert s == [s[0]] + s[1..];
    }
  }

  lemma {:induction false} InsertSorted(s: seq<Candidate>, c: Candidate)
    requires SortedByConfidence(s)
    ensures SortedByConfidence(InsertByConfidence(s, c))
  {
    if s != [] && s[0].confidence >= c.confidence {
      InsertSorted(s[1..], c);
      InsertElements(s[1..], c);
      var t := InsertByConfidence(s[1..], c);
      forall k | 0 <= k < |t|
        ensures s[0].confidence >= t[k].confidence
      {
        assert t[k] in t;
        if t[k] != c {
          var m :| 0 <= m < |s[1..]| && s[1..][m] == t[k];
          assert s[m + 1] == t[k];
        }
      }
    }
  }

  lemma {:induction false} InsertUnique(s: seq<Candidate>, c: Candidate)
    requires UniqueForms(s) && forall x :: x in s ==> x.form != c.form
    ensures UniqueForms(InsertByConfidence(s, c))
  {
    if s == [] {
    } else if s[0].confidence < c.confidence {
      assert forall k :: 0 <= k < |s| ==> s[k] in s;
    } else {
      assert forall x :: x in s[1..] ==> x in s;
      InsertUnique(s[1..], c);
      InsertElements(s[1..], c);
      var t := InsertByConfidence(s[1..], c);
      forall k | 0 <= k < |t|
        ensures s[0].form != t[k].form
      {
        assert t[k] in t;
        if t[k] != c {
          var m :| 0 <= m < |s[1..]| && s[1..][m] == t[k];
          assert s[m + 1] == t[k];
        }
      }
    }
  }

  lemma {:induction false} SortPermutes(cs: seq<Candidate>)
    ensures multiset(SortByConfidence(cs)) == multiset(cs)
  {
    if cs != [] {
      SortPermutes(cs[..|cs| - 1]);
      InsertElements(SortByConfidence(cs[..|cs| - 1]), cs[|cs| - 1]);
      assert cs == cs[..|cs| - 1] + [cs[|cs| - 1]];
    }
  }

  lemma {:induction false} SortSorted(cs: seq<Candidate>)
    ensures SortedByConfidence(SortByConfidence(cs))
  {
    if cs != [] {
      SortSorted(cs[..|cs| - 1]);
      InsertSorted(SortByConfidence(cs[..|cs| - 1]), cs[|cs| - 1]);
    }
  }

  lemma {:induction false} SortUnique(cs: seq<Candidate>)
    requires UniqueForms(cs)
    ensures UniqueForms(SortByConfidence(cs))
  {
    if cs != [] {
      var init := cs[..|cs| - 1];
      var last := cs[|cs| - 1];
      var sorted := SortByConfidence(init);
      SortUnique(init);
      SortPermutes(init);
      forall x | x in sorted
        ensures x.form != last.form
      {
        assert x in multiset(init);
        var k :| 0 <= k < |init| && init[k] == x;
        assert cs[k] == x;
      }
      InsertUnique(sorted, last);
    }
  }

  /** Sorting keeps exactly the same candidates. */
  lemma SortSameElements(d: seq<Candidate>)
    ensures forall x :: x in SortByConfidence(d) <==> x in d
  {
    SortPermutes(d);
    forall x ensures x in SortByConfidence(d) <==> x in d {
      assert x in SortByConfidence(d) <==> x in multiset(SortByConfidence(d));
    }
  }

  /** `KeepsBest` only depends on which candidates a list holds. */
  lemma KeepsBestSameElements(d: seq<Candidate>, r: seq<Candidate>, cs: seq<Candidate>)
    requires KeepsBest(d, cs) && forall x :: x in r <==> x in d
    ensures KeepsBest(r, cs)
  {
    forall k | 0 <= k < |cs|
      ensures HasForm(r, cs[k].form)
    {
      var j :| 0 <= j < |d| && d[j].form == cs[k].form;
      assert d[j] in r;
    }
    forall j, k | 0 <= j < |r| && 0 <= k < |cs| && r[j].form == cs[k].form
      ensures r[j].confidence >= cs[k].confidence
    {
      assert r[j] in d;
    }
  }

  /** Deduplication and sorting: one candidate per form, each with its best confidence, highest first. */
  lemma RankProperties(forms: seq<Candidate>)
    ensures UniqueForms(Rank(forms)) && SortedByConfidence(Rank(forms))
    ensures forall x :: x in Rank(forms) ==> x in forms
    ensures KeepsBest(Rank(forms), forms)
  {
    var d := BestByForm(forms, |forms|);
    BestByFormElements(forms, |forms|);
    BestByFormKeepsBest(forms, |forms|);
    assert forms[..|forms|] == forms;
    SortSameElements(d);
    SortSorted(d);
    SortUnique(d);
    KeepsBestSameElements(d, Rank(forms), forms);
  }

  /** A ranked candidate that is not the word itself is a stem. */
  lemma RankedStem(w: string, sfx: seq<Affix>, pfx: seq<Affix>, forms: seq<Candidate>, x: Candidate)
    requires WordThenStems(w, sfx, pfx, forms, true)
    requires x in forms && x.form != w
    ensures Stem(w, sfx, pfx, x, true)
  {
    var m :| 0 <= m < |forms| && forms[m] == x;
  }

  /** A ranked candidate with confidence above 0.9 is the word itself. */
  lemma RankedWord(w: string, sfx: seq<Affix>, pfx: seq<Affix>, forms: seq<Candidate>, x: Candidate)
    requires WordThenStems(w, sfx, pfx, forms, true)
    requires x in forms && (x.form == w || x.confidence > 0.9)
    ensures x == Candidate(w, 1.0)
  {
    var m :| 0 <= m < |forms| && forms[m] == x;
  }

  /** Ranking a list that starts with the word and continues with stems. */
  lemma RankOfWordThenStems(w: string, sfx: seq<Affix>, pfx: seq<Affix>, forms: seq<Candidate>)
    requires WordThenStems(w, sfx, pfx, forms, true)
    ensures |Rank(forms)| >= 1 && Rank(forms)[0] == Candidate(w, 1.0)
    ensures forall k :: 1 <= k < |Rank(forms)| ==> Stem(w, sfx, pfx, Rank(forms)[k], true)
  {
    var r := Rank(forms);
    RankProperties(forms);
    assert HasForm(r, forms[0].form);
    var j :| 0 <= j < |r| && r[j].form == w;
    RankedWord(w, sfx, pfx, forms, r[j]);
    assert r[0].confidence >= r[j].confidence;
    RankedWord(w, sfx, pfx, forms, r[0]);
    forall k | 1 <= k < |r|
      ensures Stem(w, sfx, pfx, r[k], true)
    {
      RankedStem(w, sfx, pfx, forms, r[k]);
    }
  }

  /**
   * What `analyze_morphology` promises: the lower-cased word first with
   * confidence 1.0; every form once; confidences non-increasing and in
   * (0, 1]; every other form a proper stem (shorter, two letters or more,
   * at most two listed suffixes and one listed prefix stripped); and every
   * candidate form kept with its highest confidence.
   */
  lemma AnalysisProperties(word: string)
    ensures var w := Lower(word); var r := Analysis(word);
      |r| >= 1 && r[0] == Candidate(w, 1.0)
      && UniqueForms(r) && SortedByConfidence(r)
      && (forall k :: 0 <= k < |r| ==> 0.0 < r[k].confidence <= 1.0)
      && (forall k :: 1 <= k < |r| ==> Stem(w, Suffixes, Prefixes, r[k], true))
      && KeepsBest(r, Forms(w, Suffixes, Prefixes))
  {
    var w := Lower(word);
    var forms := Forms(w, Suffixes, Prefixes);
    TablesWellFormed();
    FormsShape(w, Suffixes, Prefixes);
    RankProperties(forms);
    RankOfWordThenStems(w, Suffixes, Prefixes, forms);
    var r := Rank(forms);
    forall k | 0 <= k < |r|
      ensures 0.0 < r[k].confidence <= 1.0
    {
      if k > 0 {
        assert Stem(w, Suffixes, Prefixes, r[k], true);
      }
    }
  }
}
