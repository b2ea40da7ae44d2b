/**
 * The word-by-word translator of vercel-deployment/api/index.py: the
 * dictionary holds one word table per direction, keyed "<source>_to_<target>",
 * and the text is lower-cased, split on whitespace and translated one word
 * at a time, unknown words passing through.
 */
module IndexHandler {
  import opened Wrappers
  import opened Text

  /** The dictionary file: a word table per direction name. */
  type Tables = map<string, map<string, string>>

  /** `f"{source_lang}_to_{target_lang}"` */
  function DirectionKey(sourceLang: string, targetLang: string): string
  {
    sourceLang + "_to_" + targetLang
  }

  /** The word table of a direction, empty when the dictionary has none. */
  function TableOf(tables: Tables, key: string): map<string, string>
  {
    if key in tables then tables[key] else map[]
  }

  /** One word: its entry in the table, or the word itself. */
  function TranslateWord(table: map<string, string>, w: string): string
  {
    if w in table then table[w] else w
  }

  function TranslateWords(table: map<string, string>, words: seq<string>): (ts: seq<string>)
    ensures |ts| == |words| && forall k :: 0 <= k < |words| ==> ts[k] == TranslateWord(table, words[k])
  {
    seq(|words|, k requires 0 <= k < |words| => TranslateWord(table, words[k]))
  }

  /** What `perform_translation` returns. */
  function Translation(text: string, sourceLang: string, targetLang: string, tables: Tables): string
  {
    if sourceLang == targetLang then text
    else JoinSpace(TranslateWords(TableOf(tables, DirectionKey(sourceLang, targetLang)), Split(Lower(text))))
  }

  /** `perform_translation(text, source_lang, target_lang)` */
  method PerformTranslation(text: string, sourceLang: string, targetLang: string, tables: Tables) returns (translated: string)
    ensures translated == Translation(text, sourceLang, targetLang, tables)
  {
    if sourceLang == targetLang {
      return text;
    }
    var words := Split(Lower(text));
    var translatedWords: seq<string> := [];
    for k := 0 to |words|
      invariant translatedWords == TranslateWords(TableOf(tables, DirectionKey(sourceLang, targetLang)), words[..k])
    {
      var dictKey := DirectionKey(sourceLang, targetLang);
      var word := words[k];
      if dictKey in tables && word in tables[dictKey] {
        translatedWords := translatedWords + [tables[dictKey][word]];
      } else {
        translatedWords := translatedWords + [word];
      }
    }
    assert words[..|words|] == words;
    translated := JoinSpace(translatedWords);
  }

  /**
   * Every word of the lower-cased text gives one output word, in order: its
   * entry in the direction's table, else the word itself; when the
   * translations are themselves single words, splitting the output gives
   * exactly these words back.
   */
  lemma TranslationWords(text: string, sourceLang: string, targetLang: string, tables: Tables)
    requires sourceLang != targetLang
    requires forall w :: w in TableOf(tables, DirectionKey(sourceLang, targetLang)) ==> IsField(TableOf(tables, DirectionKey(sourceLang, targetLang))[w])
    ensures var words := Split(Lower(text));
      var out := Split(Translation(text, sourceLang, targetLang, tables));
      && |out| == |words|
      && forall k :: 0 <= k < |words| ==>
        out[k] == if words[k] in TableOf(tables, DirectionKey(sourceLang, targetLang))
                  then TableOf(tables, DirectionKey(sourceLang, targetLang))[words[k]] else words[k]
  {
    var table := TableOf(tables, DirectionKey(sourceLang, targetLang));
    var ts := TranslateWords(table, Split(Lower(text)));
    SplitJoinSpace(ts);
  }

  /**
   * Without a table for the direction, every word passes through: the
   * output is the lower-cased text with its whitespace runs collapsed to
   * single spaces.
   */
  lemma MissingDirectionPassesThrough(text: string, sourceLang: string, targetLang: string, tables: Tables)
    requires sourceLang != targetLang && DirectionKey(sourceLang, targetLang) !in tables
    ensures Translation(text, sourceLang, targetLang, tables) == JoinSpace(Split(Lower(text)))
    ensures Split(Translation(text, sourceLang, targetLang, tables)) == Split(Lower(text))
  {
    var words := Split(Lower(text));
    assert TranslateWords(map[], words) == words;
    SplitJoinSpace(words);
  }

  /** A word the table lacks comes out as it went in, lower-cased, so no pass-through word keeps an upper-case letter. */
  lemma PassThroughLowerCased(text: string, table: map<string, string>, k: nat)
    requires k < |Split(Lower(text))| && Split(Lower(text))[k] !in table
    ensures IsLowerCase(TranslateWords(table, Split(Lower(text)))[k])
  {
    var w := Split(Lower(text))[k];
    LowerIsLowerCase(text);
    forall j | 0 <= j < |w| ensures !IsUpperChar(w[j]) {
      SplitChars(Lower(text), k, j);
    }
  }

  /** Every character of a field of `Split(s)` is a character of `s`. */
  lemma {:induction false} SplitChars(s: string, k: nat, j: nat)
    requires k < |Split(s)| && j < |Split(s)[k]|
    ensures Split(s)[k][j] in s
    decreases |s|
  {
    if IsSpace(s[0]) {
      SplitChars(s[1..], k, j);
      assert Split(s)[k][j] in s[1..];
    } else {
      var n := FieldLength(s);
      if k == 0 {
        assert Split(s)[0] == s[..n];
        assert s[..n][j] == s[j];
      } else {
        assert Split(s)[k] == Split(s[n..])[k - 1];
        SplitChars(s[n..], k - 1, j);
        assert Split(s)[k][j] in s[n..];
      }
    }
  }

  /** index.py's own language check; each of the three programs validates separately. */
  predicate IsLanguage(v: string) { v == "id" || v == "dyk" }

  /**
   * The checks of `do_POST` (a missing field reads as ""): an empty text,
   * then an unknown language, each refused with status 400; otherwise the
   * translation. There is no length limit.
   */
  function HandlePost(text: string, sourceLang: string, targetLang: string, tables: Tables): (r: Result<string, string>)
    ensures r.Err? <==> text == [] || !IsLanguage(sourceLang) || !IsLanguage(targetLang)
    ensures text == [] ==> r == Err("Text is required")
    ensures r.Ok? ==> r.value == Translation(text, sourceLang, targetLang, tables)
  {
    if text == [] then Err("Text is required")
    else if !IsLanguage(sourceLang) || !IsLanguage(targetLang) then
      Err("Invalid language code. Use 'id' for Indonesian or 'dyk' for Dayak")
    else Ok(Translation(text, sourceLang, targetLang, tables))
  }

  function Status<T>(r: Result<T, string>): nat
  {
    if r.Ok? then 200 else 400
  }

  /** A request between the same two languages returns its text exactly, whatever the tables. */
  lemma SameLanguageIsIdentity(text: string, lang: string, tables: Tables)
    requires text != [] && IsLanguage(lang)
    ensures HandlePost(text, lang, lang, tables) == Ok(text)
  {
  }
}
