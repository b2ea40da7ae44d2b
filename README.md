# Dayak Kenyah translator: a Dafny model of the translation pipeline

The repository translates between Indonesian (`id`) and Dayak Kenyah (`dyk`)
with a static bilingual dictionary. It contains three implementations of one
pipeline, and this project models each of them separately, as written:

- **vercel-deployment/api/translate.py** (modules `Dictionary`, `Similarity`,
  `VercelMorphology`, `VercelRules`, `VercelSingleWord`, `VercelTags`,
  `VercelScanner`, `VercelHandler`). The pipeline has these stages:
  - A reverse index is built at load time.
  - The text is split into lines, and each line into `\w+ | \s+ | [^\w\s]+` tokens.
  - The phrase scanner tries windows of 3, 2 and 1 tokens.
  - Words missing from the dictionary go through the single-word cascade:
    exact lookup, then the synonym rules with a visited set, then the ranked
    morphological analysis (each form tried against the dictionary and the
    rules), then a bigram-Jaccard fuzzy scan.
  - The text is reconstructed and a confidence is computed from the tag
    texts.
- **webroot/server/main.py** (modules `WebrootValidation`,
  `WebrootMorphology`, `WebrootTranslate`, `WebrootService`). The pipeline has
  these stages:
  - The request models' field validators run first.
  - Text is tokenized with `(\w+|\W+)`.
  - Indonesian words go through exact lookup, then any analysed form (the
    analysis is returned as a set), then the fuzzy fallback over the keys.
  - Dayak Kenyah words go through a value scan over windows of 3, 2 and 1
    tokens, then a single-word value lookup, then the fuzzy fallback over the
    values.
  - Case is reconstructed and a weighted confidence is computed.
  - `strip_indonesian_suffix` and `find_compound_phrases` are modelled as
    well, even though the route never calls them.
- **vercel-deployment/api/index.py** (module `IndexHandler`): a word-by-word
  lookup in per-direction tables, behind two request checks.

Shared building blocks:

- `Text` models the ASCII character classes and the Python string built-ins
  used: `lower`, `upper`, `capitalize`, `isupper`, `istitle`, `split`,
  `strip` and `" ".join`.
- `Tokens` models the run tokenizers that `re.findall` gives for both
  patterns, and `splitlines(keepends=True)`.
- `Dictionary` is the dictionary as an ordered list of entries, since the
  scans and tie-breaks follow the iteration order of the loaded JSON.
- `Wrappers` holds `Option` and `Result`.

Loops in the source are methods with loop invariants. Each is proved equal to
a specification function, or to a relation where the source picks from a set.
The source's promises are lemmas about those functions.

Several behaviours of the code look unintended; the model keeps them as
written:

- **translate.py confidence.** Only multi-word tags (`exact_{n}gram`) are
  counted. A single-word tag ends in its formatted confidence (for example
  `morphological_0.90`), so it never equals `"exact"`, `"morphological"` and
  so on (`VercelTags.OnlyPhrasesCount`). The confidence is the share of word
  tokens that matched as phrases, and it is 0 from Dayak Kenyah. The comment
  at translate.py:407 ("Include synonym RBMT matches in confidence
  calculation (same as exact)") shows that single-word tags were meant to
  count.
- **translate.py reverse index.** The index is keyed by the dictionary value
  as written. It is queried with the lower-cased token, so values that contain
  an upper-case letter are never reached. When several keys share a value,
  whichever key set iteration yields is returned; the model keeps this as a
  free choice.
- **Word tokens are never adjacent.** Both tokenizers keep word tokens apart,
  so every multi-word window tried by the phrase scanners fails. Only
  one-token phrases ever match.
- **main.py single-word lookup.** The Dayak Kenyah single-word "exact" lookup
  is unreachable: the one-token window has already tried the same values.
- **main.py confidence.** Phrase tags count in the denominator but earn no
  credit. As a result, the Dayak Kenyah confidence is at most 0.7.
- **index.py pass-through.** A word missing from the table passes through
  lower-cased, and the spaces between words are collapsed.

## Model

| member | source | states |
|---|---|---|
| Dictionary.Lookup | vercel-deployment/api/translate.py:147-148 | a lookup finds nothing exactly when no entry has the key, and what it finds is the value of an entry with that key |
| Dictionary.LookupEntry | vercel-deployment/api/translate.py:118-119 | with unique keys (a JSON object), looking up an entry's key gives that entry's value |
| Dictionary.BuildReverse | vercel-deployment/api/translate.py:18-21 | the reverse index built at load time is the exact inverse of the dictionary: every entry's key is under its value, no value has an empty set, nothing else is present |
| Dictionary.ReverseIsInverse | vercel-deployment/api/translate.py:18-21 | with unique keys, a key is held under a value exactly when the dictionary maps that key to that value |
| Dictionary.ReverseIndexUnique | vercel-deployment/api/translate.py:18-21 | the reverse index is determined by the dictionary: any two inverses of it are equal |
| Similarity.SimilarityBounds | vercel-deployment/api/translate.py:37-51 | the bigram similarity lies in [0, 1] and is 0 when either word has fewer than two characters |
| Similarity.SimilaritySymmetricCaseless | webroot/server/main.py:185-199 | the similarity is symmetric and does not depend on letter case |
| Similarity.SimilarityReflexive | vercel-deployment/api/translate.py:37-51 | a word of two or more characters has similarity 1 with itself |
| Similarity.ScanBestIsEarliestMaximum | vercel-deployment/api/translate.py:172-177 | the strict best-so-far scan picks nothing exactly when no score exceeds 0.7, and otherwise picks a score above 0.7 that no entry beats and no earlier entry ties |
| Similarity.FuzzyScanPicksEarliestBest | webroot/server/main.py:334-338 | the fuzzy scan over a vocabulary picks the earliest word of highest similarity above 0.7, or nothing when no word is above 0.7 |
| Similarity.FuzzySearch | vercel-deployment/api/translate.py:168-177 | the scan loop's pick and running best similarity are those of the fuzzy scan over the whole vocabulary |
| Text.StripEmptyIffBlank | webroot/server/main.py:117-118 | `not v.strip()` holds exactly for text made only of whitespace, the empty text included |
| Text.CaseMappingsIdempotent | webroot/server/main.py:474-486 | lower, upper and capitalize change nothing when applied a second time |
| Text.SplitJoinSpace | vercel-deployment/api/index.py:21-29 | splitting a space-joined list of whitespace-free words gives back exactly those words |
| Tokens.RunsAreMaximal | vercel-deployment/api/translate.py:348 | the run tokens spell the input, each is one character class, and neighbours differ in class |
| Tokens.WordRunsLossless | webroot/server/main.py:455-458 | the word and non-word run tokens spell the text, each is a word or free of word characters, and no two word tokens are neighbours |
| Tokens.LongWindowsNeverAllWords | vercel-deployment/api/translate.py:205-207 | without neighbouring word tokens, no window of two or more tokens is made only of words |
| Tokens.SplitLinesLossless | vercel-deployment/api/translate.py:343 | `splitlines(keepends=True)` gives lines that spell the text, each line but the last ending in a line break |
| VercelRules.ApplyRules | vercel-deployment/api/translate.py:108-140 | a cycle is reported exactly when the word was visited; a key gives its value with 1.0; the synonym hop is taken exactly when the word is a missing synonym whose target is a key, giving the target's value with the table weight; the double hop is taken exactly when the target is also missing, is itself a synonym not yet visited, and its own target is a key, giving that value with the product of the weights; a miss returns the word with 0.0; the confidence is in [0, 1] |
| VercelRules.FreshRules | vercel-deployment/api/translate.py:151 | called with a fresh visited set, the rules never report a cycle or a direct hit on a missing word, and a double hop happens only for sobat or sahabat, giving kawan's value with 0.9 times 0.95; conversely sobat or sahabat take the double hop whenever the word and teman are missing and kawan is present |
| VercelMorphology.TablesWellFormed | vercel-deployment/api/translate.py:59-75 | every affix is non-empty, and its weight is in (0, 0.9] for suffixes and (0, 0.8] for prefixes |
| VercelMorphology.SecondSuffixes | vercel-deployment/api/translate.py:85-89 | the inner loop yields the stems that a second suffix leaves, with the product of the confidences |
| VercelMorphology.SuffixPass | vercel-deployment/api/translate.py:56-89 | the suffix pass gives `[(word, 1.0)]` followed, for each suffix in table order, by its stem and that stem's double-suffix stems |
| VercelMorphology.PrefixOnForms | vercel-deployment/api/translate.py:94-98 | one prefix tried on every form of the copy, in order |
| VercelMorphology.PrefixPass | vercel-deployment/api/translate.py:91-98 | the prefix pass appends, prefix by prefix, the stripped forms of the suffix pass's copy |
| VercelMorphology.Deduplicate | vercel-deployment/api/translate.py:100-104 | the `seen` loop records each form once, replacing it only on a strictly higher confidence |
| VercelMorphology.AnalyzeMorphology | vercel-deployment/api/translate.py:53-106 | the method computes the analysis function of the lower-cased word |
| VercelMorphology.FormsShape | vercel-deployment/api/translate.py:56-98 | before deduplication the list is the word with 1.0 followed only by proper stems: shorter, two letters or more, at most two listed suffixes and one listed prefix removed, confidence at most 0.9 |
| VercelMorphology.BestByFormElements | vercel-deployment/api/translate.py:101-104 | the `seen` table holds each form once, and only candidates that were offered |
| VercelMorphology.BestByFormKeepsBest | vercel-deployment/api/translate.py:101-104 | every offered form is in the `seen` table with at least the highest confidence offered for it |
| VercelMorphology.SortPermutes | vercel-deployment/api/translate.py:106 | sorting is a permutation |
| VercelMorphology.SortSorted | vercel-deployment/api/translate.py:106 | the sorted list has non-increasing confidences |
| VercelMorphology.SortUnique | vercel-deployment/api/translate.py:106 | sorting keeps the forms distinct |
| VercelMorphology.RankProperties | vercel-deployment/api/translate.py:100-106 | deduplicating and then sorting gives one candidate per form, highest confidence first, each offered and each with its best confidence |
| VercelMorphology.RankOfWordThenStems | vercel-deployment/api/translate.py:100-106 | after ranking, the word with 1.0 comes first and every later candidate is a proper stem |
| VercelMorphology.AnalysisProperties | vercel-deployment/api/translate.py:53-106 | the analysis starts with the lower-cased word at 1.0, has each form once, has non-increasing confidences in (0, 1], lists only proper stems after the word, and keeps every candidate form at its highest confidence |
| VercelTags.NatTextRoundTrip | vercel-deployment/api/translate.py:399 | `int()` of the decimal text of a phrase length gives back the length |
| VercelTags.OnlyPhrasesCount | vercel-deployment/api/translate.py:385-400 | of the counting chain's tests, only the `exact_{n}gram` test ever matches a tag the scanner emits, and it reads back the phrase's own length; single-word, part, reverse, preserved and none tags count nothing |
| VercelSingleWord.ProcessSingleWord | vercel-deployment/api/translate.py:142-182 | the method computes the cascade function |
| VercelSingleWord.MorphSearch | vercel-deployment/api/translate.py:156-165 | the loop over ranked forms returns the first form's result that the dictionary or the rules give |
| VercelSingleWord.TryForm | vercel-deployment/api/translate.py:158-165 | one ranked form: its value weighted by the form's confidence, else a rule other than none with the product of the confidences |
| VercelSingleWord.FuzzyMatch | vercel-deployment/api/translate.py:167-180 | the fuzzy loop's result is that of the fuzzy step over the dictionary keys, with nothing when the best key's translation is empty |
| VercelSingleWord.MorphScanFinds | vercel-deployment/api/translate.py:156-165 | the scan finds nothing exactly when no ranked form translates; otherwise its result is that of the first form that does |
| VercelSingleWord.MorphAtBounds | vercel-deployment/api/translate.py:159-165 | a form's morphological result keeps its confidence in [0, 1] |
| VercelSingleWord.FuzzyStepPicks | vercel-deployment/api/translate.py:172-180 | a fuzzy result is the earliest key of highest similarity above 0.7, with that similarity as its confidence and a non-empty translation |
| VercelSingleWord.SingleWordProperties | vercel-deployment/api/translate.py:142-182 | a key gives its value, exact, with 1.0; a morphological result comes from the first translatable ranked form, which is a proper stem; a fuzzy result is the earliest best key; a miss returns the word as given with 0.0; the confidence is in [0, 1] |
| VercelScanner.PhraseLenIsLongest | vercel-deployment/api/translate.py:205-232 | the window search from `min(3, len(tokens) - i)` down finds the longest all-word window whose joined lower-cased key is in the dictionary, or nothing when none matches |
| VercelScanner.PhraseEntriesShape | vercel-deployment/api/translate.py:216-229 | a phrase gives its case-adjusted translation and `exact_{n}gram` on the first token and the empty string on the others, each with its own token as original |
| VercelScanner.FindPhrase | vercel-deployment/api/translate.py:205-232 | the window loop returns the search's result |
| VercelScanner.EmitPhrase | vercel-deployment/api/translate.py:216-229 | the appended results are those of the phrase |
| VercelScanner.ScanWord | vercel-deployment/api/translate.py:199-246 | the Indonesian branch at a word token is a phrase if one matches, else the single-word cascade, and it continues after the tokens it consumed |
| VercelScanner.ReverseToken | vercel-deployment/api/translate.py:248-265 | a Dayak Kenyah word gives one of the keys stored under its lower-cased form, or itself, case-adjusted |
| VercelScanner.ScanAt | vercel-deployment/api/translate.py:190-266 | one pass of the scan loop, in either direction |
| VercelScanner.ProcessTokens | vercel-deployment/api/translate.py:185-268 | the Indonesian results are those of the scan function; the Dayak Kenyah results hold one allowed result per token |
| VercelScanner.IdOnePerToken | vercel-deployment/api/translate.py:185-246 | the Indonesian scan gives one result per token, in order; non-word tokens are preserved as they were, and later phrase tokens get "" |
| VercelScanner.DykOnePerToken | vercel-deployment/api/translate.py:248-266 | the Dayak Kenyah scan gives one result per token, tagged only preserved, reverse or none |
| VercelScanner.OnlyOneTokenWindows | vercel-deployment/api/translate.py:205-207 | without neighbouring word tokens, only one-token windows can match |
| VercelScanner.KeyStartsPhrase | vercel-deployment/api/translate.py:205-214 | a word token whose lower-cased form is a key always starts a phrase, so the single-word "exact" path is dead |
| VercelScanner.CascadeExactOnlyOnHit | vercel-deployment/api/translate.py:147-148 | the cascade answers exact only for a word whose lower-cased form is a key |
| VercelScanner.IdScanTags | vercel-deployment/api/translate.py:185-246 | the Indonesian scan never yields a scored exact tag, and without neighbouring words it yields only one-token phrases and no part tags |
| VercelScanner.ReverseOnlyReachesLowerCaseValues | vercel-deployment/api/translate.py:250-252 | a reverse result is a key whose value is the lower-cased token, so values with upper-case letters are never reached |
| VercelHandler.Tokenize | vercel-deployment/api/translate.py:343-352 | the tokens are those of each line from `splitlines(keepends=True)`, one line after another |
| VercelHandler.TokenizeLossless | vercel-deployment/api/translate.py:343-352 | the tokens spell the text, each is a word or free of word characters, and no two word tokens are neighbours, even across lines |
| VercelHandler.Reconstruct | vercel-deployment/api/translate.py:366-401 | the reconstruction loop, with every counter of the source, gives the tally function's text and counts |
| VercelHandler.TallyCounts | vercel-deployment/api/translate.py:385-401 | the exact, synonym, morphological and lightweight counters never move, and phrases never outnumber words |
| VercelHandler.TallyOneTokenPhrases | vercel-deployment/api/translate.py:374-401 | when every phrase is one token, the text is every result's emission in order, the word count is the number of word tokens, and the phrase count is the number of phrase tags |
| VercelHandler.ConfidenceOfTally | vercel-deployment/api/translate.py:403-410 | the confidence lies in [0, 1], is 0 without word tokens, and otherwise is phrases divided by words |
| VercelHandler.Validate | vercel-deployment/api/translate.py:284-314 | a request is refused exactly when the dictionary is empty (503), the text is empty, a language is not id or dyk, or the text is over 10000 characters |
| VercelHandler.HandleTranslate | vercel-deployment/api/translate.py:280-410 | a refused request gets its error; the same language copies the text with confidence 1.0; otherwise the reply is the reconstruction of results the scan may give for the tokenized text |
| VercelHandler.NoPhrasesNoCount | vercel-deployment/api/translate.py:396-397 | without phrase tags the phrase counter stays 0 |
| VercelHandler.FinishOneTokenPhrases | vercel-deployment/api/translate.py:366-410 | with one-token phrases, the reply's text is the concatenated emissions and its confidence is the phrase share, in [0, 1] |
| VercelHandler.IdScanOfText | vercel-deployment/api/translate.py:343-361 | the Indonesian scan of tokenized text gives one result per token, and every phrase is one token |
| VercelHandler.PipelineProperties | vercel-deployment/api/translate.py:343-410 | a translated reply has one result per token, keeps every non-word token as it was, has as confidence the share of word tokens matched as phrases, and has confidence 0 from Dayak Kenyah |
| WebrootValidation.ValidateBatchSize | webroot/server/main.py:97-101 | a batch size passes exactly when it is in 1..512, unchanged |
| WebrootValidation.ValidateLanguage | webroot/server/main.py:109-113 | a language passes exactly when it is id or dyk, unchanged |
| WebrootValidation.ValidateText | webroot/server/main.py:115-121 | a text passes exactly when it is not blank and has at most 10000 characters; the blank-text error comes exactly for blank text |
| WebrootValidation.ErrorOf | webroot/server/main.py:97-121 | a field gets an error exactly when its validator fails, and at most one, carrying the validator's message |
| WebrootValidation.PayloadErrors | webroot/server/main.py:97-121 | a payload has no errors exactly when all four fields are valid, and it has at most four |
| WebrootValidation.PayloadErrorFields | webroot/server/main.py:103-121 | every error names one of sourceLang, targetLang, text and options.batchSize |
| WebrootValidation.BlankTextError | webroot/server/main.py:115-118 | the payload carries the text-cannot-be-empty error exactly when the text is blank |
| WebrootMorphology.StripFromKeeps | webroot/server/main.py:205-211 | the suffix loop leaves the word as it is exactly when no suffix from the current one on strips it |
| WebrootMorphology.StripFromFinds | webroot/server/main.py:205-210 | when the loop cuts, it cuts the first suffix that leaves more than one character |
| WebrootMorphology.StripIndonesianSuffixSpec | webroot/server/main.py:201-211 | the lower-cased word comes back unchanged unless ku, mu, nya, kan or i ends it with two or more characters left; then the stem of the first such suffix is returned, and stem plus suffix is the word |
| WebrootMorphology.ScanCompounds | webroot/server/main.py:224-235 | the pairing loop gives the greedy pairing function |
| WebrootMorphology.FindCompoundPhrases | webroot/server/main.py:213-235 | the method pairs the lower-cased, whitespace-split words of the text |
| WebrootMorphology.CompoundCovers | webroot/server/main.py:225-235 | the pieces start at the first word, end at the last word, and their lengths add up to the word count |
| WebrootMorphology.CompoundContiguous | webroot/server/main.py:225-235 | each piece starts where the previous one ends |
| WebrootMorphology.CompoundPiecesFit | webroot/server/main.py:226-234 | each piece is either a listed two-word phrase or a single word that starts no listed pair |
| WebrootMorphology.FindCompoundPhrasesTiles | webroot/server/main.py:213-235 | the pieces tile the words in order, and each is a listed pair or an unpaired single word |
| WebrootMorphology.DeeperBases | webroot/server/main.py:254-258 | the inner loop yields a base's second-suffix stems, in suffix order |
| WebrootMorphology.SuffixBases | webroot/server/main.py:247-258 | the outer loop yields, suffix by suffix, each base and then its deeper bases |
| WebrootMorphology.PrefixBases | webroot/server/main.py:261-265 | the prefix loop yields the stems the word's prefixes leave |
| WebrootMorphology.ExtendForms | webroot/server/main.py:275-278 | the forms, followed by the synonyms of each form in order |
| WebrootMorphology.AnalyzeMorphology | webroot/server/main.py:237-280 | the returned set is the set of the extended forms of the lower-cased word |
| WebrootMorphology.InSuffixBases | webroot/server/main.py:247-258 | a suffix base is exactly a form with one or two listed suffixes stripped, each step leaving two or more characters |
| WebrootMorphology.InBaseForms | webroot/server/main.py:240-265 | the base forms are exactly the word and its one-prefix or one-or-two-suffix stems |
| WebrootMorphology.InFormsOf | webroot/server/main.py:240-280 | the extended forms are exactly the base forms and the table synonyms of any of them |
| WebrootMorphology.MorphFormsMembers | webroot/server/main.py:237-280 | the analysis holds exactly the lower-cased word, its stripped forms and their table synonyms, and always holds the lower-cased word |
| WebrootTranslate.AdjustIdempotent | webroot/server/main.py:346-352 | the case rule applied a second time for the same token changes nothing |
| WebrootTranslate.FirstValueFrom | webroot/server/main.py:373-379 | the value scan finds the first entry whose lower-cased value is the target, or nothing when there is none |
| WebrootTranslate.FindValue | webroot/server/main.py:373-379 | the loop with `break` returns the first matching entry |
| WebrootTranslate.ApplyCase | webroot/server/main.py:346-352 | the case block computes the case rule, or nothing when case-sensitive |
| WebrootTranslate.TranslateIdWord | webroot/server/main.py:311-356 | the Indonesian branch for a word gives an allowed result: exact entry, else some analysed form's entry, else the fuzzy match, else the word, in the token's case |
| WebrootTranslate.IdWordFacts | webroot/server/main.py:311-352 | exact holds exactly when the lower-cased word is a key; morphological comes from an analysed key; lightweight needs the option and no analysed key; none returns the word; all in the token's case |
| WebrootTranslate.IdLightPicksBest | webroot/server/main.py:326-343 | the Indonesian fuzzy fallback takes the earliest key of highest similarity above 0.7, and gives that key's translation |
| WebrootTranslate.WindowFrom | webroot/server/main.py:364-381 | a found window has 1 to n tokens inside the token list and names an entry of the dictionary |
| WebrootTranslate.WindowFromFound | webroot/server/main.py:364-381 | a found window is the longest window of at most n word tokens that spells a lower-cased value, and its entry is the first one in load order |
| WebrootTranslate.FindWindow | webroot/server/main.py:364-381 | the n-gram loop returns the window search's result from 3 down |
| WebrootTranslate.WindowEntries | webroot/server/main.py:384-400 | a window gives one result per token |
| WebrootTranslate.WindowTakesFirstKey | webroot/server/main.py:384-400 | a window's first token takes, in its own case, the key of the first entry whose value it spells, and the other tokens take "" |
| WebrootTranslate.EmitWindow | webroot/server/main.py:384-401 | the appended results are the window's results |
| WebrootTranslate.WindowMissNoValue | webroot/server/main.py:404-414 | a word that starts no window has no dictionary value equal to it up to case |
| WebrootTranslate.CascadeAfterMiss | webroot/server/main.py:406-414 | after a missed window the single-word exact lookup never succeeds, so it is dead code |
| WebrootTranslate.ValueTranslationIsFirstKey | webroot/server/main.py:431 | back-translation of a value gives the key of the first entry, in load order, whose value equals it up to case |
| WebrootTranslate.DykLightPicksBest | webroot/server/main.py:416-432 | the Dayak Kenyah fuzzy fallback takes the earliest value of highest similarity above 0.7, and gives the first key whose value equals it up to case |
| WebrootTranslate.DykSingleCased | webroot/server/main.py:434-441 | the single-word result already follows the token's case |
| WebrootTranslate.TranslateDykSingle | webroot/server/main.py:403-445 | the single-word part of the Dayak Kenyah branch computes its specification function |
| WebrootTranslate.DykStep | webroot/server/main.py:358-445 | one pass of the Dayak Kenyah branch consumes at least one token and stays inside the list |
| WebrootTranslate.DykWord | webroot/server/main.py:359-445 | at a word token, the branch is a window if one spells a value, else the single word |
| WebrootTranslate.ProcessTokens | webroot/server/main.py:282-447 | the Indonesian results hold one allowed result per token; the Dayak Kenyah results are those of the scan function |
| WebrootTranslate.IdOnePerToken | webroot/server/main.py:296-356 | the Indonesian branch gives one result per token, never a phrase tag, each in its token's case, with non-word tokens passed through as "none" |
| WebrootTranslate.OnlyOneTokenWindows | webroot/server/main.py:365-369 | without neighbouring word tokens, every window that matches has one token |
| WebrootTranslate.DykOnePerToken | webroot/server/main.py:358-445 | the Dayak Kenyah branch gives one result per token, tagged only none, lightweight or a window of 1 to 3 tokens (only 1 without neighbouring words), each in its token's case |
| WebrootService.DropEmptyKeeps | webroot/server/main.py:458 | filtering out empty tokens changes nothing when no token is empty |
| WebrootService.TextTokensAreRuns | webroot/server/main.py:455-458 | the filtered tokens are the maximal word and non-word runs, they spell the text, and no two word tokens are neighbours |
| WebrootService.ReconstructToken | webroot/server/main.py:474-489 | a word token gets its translation in the token's case, and any other token is copied |
| WebrootService.Reconstruct | webroot/server/main.py:468-489 | the rebuilt text is the concatenation of every result's piece, in order |
| WebrootService.ComputeConfidence | webroot/server/main.py:491-506 | the loop computes the summed credit divided by the number of results not tagged none, and 0.0 without any |
| WebrootService.ScoreAtMost | webroot/server/main.py:495-504 | when no counted result weighs more than w, the score is between 0 and w per counted result |
| WebrootService.ConfidenceAtMost | webroot/server/main.py:491-506 | when no counted result weighs more than w, the confidence lies in [0, w] |
| WebrootService.ConfidenceBounds | webroot/server/main.py:491-506 | the confidence lies in [0, 1], and is 0 when no result is counted |
| WebrootService.AllExactFullConfidence | webroot/server/main.py:495-506 | when every counted result is exact, the confidence is 1.0 |
| WebrootService.PhrasesWeighNothing | webroot/server/main.py:495-506 | phrase tags count in the denominator but earn nothing, so a text matched only by phrases gets 0.0 |
| WebrootService.TranslateText | webroot/server/main.py:449-514 | the result carries the languages and source text, the reconstruction of results the token scan may give, and their confidence |
| WebrootService.ProcessResultsFacts | webroot/server/main.py:461 | the scan gives one result per token, standing for that token and already in its case |
| WebrootService.ReconstructionFacts | webroot/server/main.py:468-489 | the rebuilt text has one piece per token: non-word tokens as they were, word tokens as their translation, which the second case pass leaves unchanged |
| WebrootService.NoWordsUnchanged | webroot/server/main.py:449-506 | a text without word characters comes back unchanged, with confidence 0.0 |
| WebrootService.NoCountNoConfidence | webroot/server/main.py:491-498 | results all tagged none are not counted |
| WebrootService.ConfidenceFacts | webroot/server/main.py:491-506 | the confidence lies in [0, 1]; from Dayak Kenyah it is at most 0.7, and every phrase match is one token |
| WebrootService.Translate | webroot/server/main.py:516-603 | invalid payloads get their field errors; then an empty dictionary gets the service-unavailable error; the same language gives a direct copy with 1.0; otherwise the reply carries the translation result |
| WebrootService.TranslatedDirections | webroot/server/main.py:109-121 | a payload that reaches the translator goes id to dyk or dyk to id, with 1 to 10000 characters of text |
| IndexHandler.TranslateWords | vercel-deployment/api/index.py:23-28 | one output per word, in order: its table entry, or the word itself |
| IndexHandler.PerformTranslation | vercel-deployment/api/index.py:18-29 | the same language copies the text; otherwise the lower-cased, split words are translated one by one and joined with single spaces |
| IndexHandler.TranslationWords | vercel-deployment/api/index.py:21-29 | when the table's translations are single words, splitting the output gives exactly one translated word per input word |
| IndexHandler.MissingDirectionPassesThrough | vercel-deployment/api/index.py:24-28 | without a table for the direction, the output is the lower-cased text with whitespace collapsed to single spaces |
| IndexHandler.PassThroughLowerCased | vercel-deployment/api/index.py:21-28 | a word the table lacks comes out lower-cased |
| IndexHandler.HandlePost | vercel-deployment/api/index.py:60-65 | a request is refused exactly for an empty text or an unknown language, with the empty-text message first; otherwise the reply is the translation |
| IndexHandler.SameLanguageIsIdentity | vercel-deployment/api/index.py:19-20 | a valid request between the same two languages returns its text exactly |

## Left out

- HTTP transport, JSON parsing, CORS headers, timestamps, `requestId` echoing, response metadata and processing time are left out. The handlers are modelled from the decoded payload to the reply.
- Exceptions become results. The 400, 422, 500 and 503 paths are modelled as error values. A malformed body, a non-integer `Content-Length` and the catch-all 500 handlers are not modelled, because they depend on I/O and JSON decoding.
- The `ValueError` of `int(match_type[6:-4])` in translate.py is modelled (`ParseNat` returns nothing), but the scanner never emits a tag that reaches it.
- `VercelTags.ParseNat` accepts ASCII digits only. Python's `int()` also accepts signs, surrounding whitespace, underscores and non-ASCII digits, none of which a scanner tag contains.
- `VercelTags.ConfidenceText` rounds half up on exact reals. Python's `f"{c:.2f}"` rounds the binary float half to even, so the formatted digits may differ on ties. What the tag text proves does not depend on those digits.
- `Similarity.NgramSimilarity`: similarities and confidences are exact reals, not IEEE doubles, so float rounding is not modelled.
- `VercelMorphology.BestByFormKeepsBest` and `VercelMorphology.SortSorted`: the confidence products are exact reals, so products that are equal as reals but differ as doubles (such as (0.9 times 0.7) times 0.8 and (0.9 times 0.8) times 0.7) tie in the model, and the best-by-form and sort tie-breaks can then differ from the source.
- `ngram_similarity` is only ever called with its default `n = 2`, so the model fixes bigrams.
- Character classes, case mapping, `isspace` and `splitlines` cover ASCII only. Unicode letters and digits in `\w`, `\x85`, U+2028 and the other non-ASCII line breaks, and non-ASCII case mappings are not modelled.
- VercelRules.ApplyRules: the source also adds the word to the caller's `visited` set. Every caller passes a fresh set, so that mutation is not modelled.
- VercelScanner.ProcessTokens: `next(iter(candidates))` depends on CPython's set iteration order. The model allows any key of the set.
- WebrootMorphology.AnalyzeMorphology: `list(set(...))` has no specified order, so the analysis is a set. Which analysed key the Indonesian branch picks is a free choice (`WebrootTranslate.TranslateIdWord`).
- The webroot GPU path is not modelled: `cuda_word_match`, the padded word tensors, `torch.cuda` availability, the model name and GPU memory in the metadata. `process_tokens` computes `source_vectors` but never uses them.
- `WebrootService.Translate` assumes a CUDA host. main.py defines `VOCAB_INDO` and `VOCAB_DAYAK` only when `torch.cuda.is_available()` (main.py:70-73), and the model takes them to be the dictionary's keys and values. On a CPU-only host `process_tokens` reads the undefined names (main.py:288, 292), so every translation between two different languages, even of a text without words, answers 500 `TRANSLATION_PROCESSING_ERROR` (main.py:558-566). The model does not capture that failure.
- Options that affect nothing are left out: `useGPU`, `preservePunctuation` and the batch size, which is only validated. `preserveFormatting` is modelled because it enables the lightweight matching.
- Async execution, background tasks and logging are left out, along with the debug prints and the dictionary load messages.
- `IndexHandler.HandlePost`: the dictionary file is a map from direction names to word tables. A direction entry that is not an object is not modelled, and neither is a failed load, which leaves the dictionary empty.
- `do_GET`, `do_OPTIONS`, the static-file route, the frontend (`script.js`, the Next.js pages) and server start-up are outside this model. Because loading raises on an empty dictionary (main.py:67-68, 86-88), the route's 503 branch (main.py:520-528), which `WebrootService.Translate` models as written, cannot fire in a running server.
