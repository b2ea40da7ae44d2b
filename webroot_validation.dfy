/**
 * The field validators of the request models of webroot/server/main.py:
 * `TranslationOptions.batchSize`, and `TranslationPayload`'s languages and
 * text. A payload that fails them is refused before the route runs, with
 * one error per failing field, in field order.
 */
module WebrootValidation {
  import opened Wrappers
  import opened Text

  /** main.py's own language validator and length limit; each of the three programs validates separately. */
  predicate IsLanguage(v: string) { v == "id" || v == "dyk" }

  const MaxTextLength := 10000

  /** `validate_languages` */
  function ValidateLanguage(v: string): (r: Result<string, string>)
    ensures r.Ok? <==> IsLanguage(v)
    ensures r.Ok? ==> r.value == v
  {
    if v != "id" && v != "dyk" then Err("Language must be either 'id' or 'dyk'") else Ok(v)
  }

  /** `validate_text`: blank text first, then the length limit. */
  function ValidateText(v: string): (r: Result<string, string>)
    ensures r.Ok? <==> !IsBlank(v) && |v| <= MaxTextLength
    ensures r.Ok? ==> r.value == v
    ensures r == Err("Text cannot be empty") <==> IsBlank(v)
  {
    StripEmptyIffBlank(v);
    if Strip(v) == [] then Err("Text cannot be empty")
    else if |v| > 10000 then Err("Text too long. Maximum length is 10000 characters")
    else Ok(v)
  }

  /** `validate_batch_size` */
  function ValidateBatchSize(v: int): (r: Result<int, string>)
    ensures r.Ok? <==> 1 <= v <= 512
    ensures r.Ok? ==> r.value == v
  {
    if v < 1 || v > 512 then Err("Batch size must be between 1 and 512") else Ok(v)
  }

  datatype FieldError = FieldError(field: string, message: string)

  /** The error a validator's result gives its field: one when it fails, none when it passes. */
  function ErrorOf<T>(field: string, r: Result<T, string>): (es: seq<FieldError>)
    ensures es == [] <==> r.Ok?
    ensures |es| <= 1 && forall e :: e in es ==> r.Err? && e == FieldError(field, r.error)
  {
    if r.Err? then [FieldError(field, r.error)] else []
  }

  /**
   * Every validation error of a payload with the given fields, in the order
   * the fields are declared (the options nested last).
   */
  function PayloadErrors(sourceLang: string, targetLang: string, text: string, batchSize: int): (errors: seq<FieldError>)
    ensures errors == [] <==>
      IsLanguage(sourceLang) && IsLanguage(targetLang) && !IsBlank(text) && |text| <= MaxTextLength
      && 1 <= batchSize <= 512
    ensures |errors| <= 4
  {
    var source := ErrorOf("sourceLang", ValidateLanguage(sourceLang));
    var target := ErrorOf("targetLang", ValidateLanguage(targetLang));
    var body := ErrorOf("text", ValidateText(text));
    var batch := ErrorOf("options.batchSize", ValidateBatchSize(batchSize));
    source + target + body + batch
  }

  /** Each error names one of the four fields. */
  lemma PayloadErrorFields(sourceLang: string, targetLang: string, text: string, batchSize: int)
    ensures forall e :: e in PayloadErrors(sourceLang, targetLang, text, batchSize) ==>
      e.field in {"sourceLang", "targetLang", "text", "options.batchSize"}
  {
    ErrorFields(ValidateLanguage(sourceLang), ValidateLanguage(targetLang), ValidateText(text), ValidateBatchSize(batchSize));
  }

  lemma ErrorFields(a: Result<string, string>, b: Result<string, string>, c: Result<string, string>, d: Result<int, string>)
    ensures forall e :: e in ErrorOf("sourceLang", a) + ErrorOf("targetLang", b) + ErrorOf("text", c) + ErrorOf("options.batchSize", d) ==>
      e.field in {"sourceLang", "targetLang", "text", "options.batchSize"}
  {
    var all := ErrorOf("sourceLang", a) + ErrorOf("targetLang", b) + ErrorOf("text", c) + ErrorOf("options.batchSize", d);
    InFour(ErrorOf("sourceLang", a), ErrorOf("targetLang", b), ErrorOf("text", c), ErrorOf("options.batchSize", d));
    forall e: FieldError | e in all
      ensures e.field in {"sourceLang", "targetLang", "text", "options.batchSize"}
    {
      FieldNames(e.field);
    }
  }

  /** The text gets the blank-text error exactly when it is blank. */
  lemma BlankTextError(sourceLang: string, targetLang: string, text: string, batchSize: int)
    ensures FieldError("text", "Text cannot be empty") in PayloadErrors(sourceLang, targetLang, text, batchSize) <==> IsBlank(text)
  {
    TextErrorFrom(ValidateLanguage(sourceLang), ValidateLanguage(targetLang), ValidateText(text), ValidateBatchSize(batchSize), "Text cannot be empty");
  }

  /** Only the text's validator can give an error on the text field. */
  lemma TextErrorFrom(a: Result<string, string>, b: Result<string, string>, c: Result<string, string>, d: Result<int, string>, m: string)
    ensures FieldError("text", m) in ErrorOf("sourceLang", a) + ErrorOf("targetLang", b) + ErrorOf("text", c) + ErrorOf("options.batchSize", d)
      <==> c == Err(m)
  {
    var source, target, body, batch := ErrorOf("sourceLang", a), ErrorOf("targetLang", b), ErrorOf("text", c), ErrorOf("options.batchSize", d);
    InFour(source, target, body, batch);
    var e := FieldError("text", m);
    assert e !in source && e !in target && e !in batch;
    assert e in body <==> c == Err(m);
  }

  lemma FieldNames(f: string)
    requires f == "sourceLang" || f == "targetLang" || f == "text" || f == "options.batchSize"
    ensures f in {"sourceLang", "targetLang", "text", "options.batchSize"}
  {
  }

  lemma InFour(a: seq<FieldError>, b: seq<FieldError>, c: seq<FieldError>, d: seq<FieldError>)
    ensures forall e :: e in a + b + c + d <==> e in a || e in b || e in c || e in d
  {
  }
}
