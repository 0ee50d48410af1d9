/**
 * The translation service: the structured-output schema built from the
 * requested languages, the request sent to the model, and the checks and
 * normalisation applied to its reply, with the error each failure becomes.
 * The model call and `JSON.parse` are parameters.
 */
module GeminiService {
  import opened Wrappers
  import opened Sequences
  import opened JsStrings
  import opened JsValues

  /** The schema type tags of the generative-AI client. */
  datatype SchemaType = STRING | OBJECT | ARRAY

  /** A response schema: a type, an optional description, named properties, the item schema of an array, the required properties. */
  datatype Schema = Schema(
    kind: SchemaType,
    description: Option<string>,
    properties: map<string, Schema>,
    items: Option<Schema>,
    required: seq<string>)

  /** What is sent to the model. The wording of the prompt around the language list and the strings is not modelled. */
  datatype Request = Request(
    model: string,
    languageList: string,
    strings: seq<string>,
    responseMimeType: string,
    responseSchema: Schema)

  /** What the model call gives back: the reply's text (absent when the reply has none), or the value it threw. */
  datatype CallOutcome = Responded(text: Option<string>) | Threw(thrown: Thrown)

  /** What `JSON.parse` gives back: a value, or a thrown `SyntaxError`. */
  datatype ParseOutcome = Parsed(value: Json) | Unparsable

  /** One normalised reply item. The values are kept as JSON because the reply is not checked beyond `||`. */
  datatype ServiceResult = ServiceResult(original: Json, translations: Json)

  const ModelName := "gemini-2.5-flash"
  const ArrayDescription := "A list of translation objects, one for each original English string provided."
  const OriginalDescription := "The original English ICU string that was translated."
  const TranslationsDescription := "An object containing the translations, where each key is a language code."
  const MissingKeyMessage := "API_KEY environment variable not set."
  const EmptyResponseMessage := "Received an empty response from the API."
  const NotArrayMessage := "API response is not in the expected array format."
  const ParseFailedMessage := "Failed to parse the translation response from the API. The format might be invalid."
  const FetchFailedMessage := "Failed to fetch translation from Gemini API."
  /** The message a property read on `undefined` or `null` throws with; it never reaches the caller. */
  const PropertyOfNothingMessage := "Cannot read properties of undefined"

  function LanguageProperty(lang: string): (p: Schema)
    ensures p.kind == STRING && p.description == Some("The translation in " + lang + ".")
    ensures p.properties == map[] && p.items == None && p.required == []
  {
    Schema(STRING, Some("The translation in " + lang + "."), map[], None, [])
  }

  /**
   * The one key whose assignment on a plain object does not create a property:
   * `acc['__proto__'] = {...}` replaces the object's prototype instead.
   */
  const ProtoKey := "__proto__"

  /**
   * `languages.reduce((acc, lang) => { acc[lang] = ...; return acc; }, acc)`:
   * a left fold that sets one property per language, a later occurrence
   * overwriting an earlier one. The code `__proto__` only changes the
   * accumulator's prototype, which the schema's properties do not include.
   */
  function AddLanguageProperties(acc: map<string, Schema>, languages: seq<string>): (m: map<string, Schema>)
    ensures m.Keys == acc.Keys + (Elements(languages) - {ProtoKey})
    ensures forall lang :: lang in m ==>
      m[lang] == (if lang in languages && lang != ProtoKey then LanguageProperty(lang) else acc[lang])
    decreases |languages|
  {
    if languages == [] then acc
    else
      var lang := languages[0];
      assert Elements(languages) == {lang} + Elements(languages[1..]);
      var next := if lang == ProtoKey then acc else acc[lang := LanguageProperty(lang)];
      AddLanguageProperties(next, languages[1..])
  }

  /**
   * The `translations` properties: one string property per requested language
   * code, described as the translation in that language; `__proto__` gives none.
   */
  function TranslationProperties(languages: seq<string>): (m: map<string, Schema>)
    ensures m.Keys == Elements(languages) - {ProtoKey}
    ensures forall lang :: lang in m ==> m[lang] == LanguageProperty(lang)
    ensures forall lang :: lang in m ==>
      m[lang].kind == STRING && m[lang].description == Some("The translation in " + lang + ".")
  {
    AddLanguageProperties(map[], languages)
  }

  /**
   * One property per distinct code: as many properties as codes exactly when
   * no code repeats and none is `__proto__`.
   */
  lemma TranslationPropertiesCount(languages: seq<string>)
    ensures |TranslationProperties(languages)| <= |languages|
    ensures |TranslationProperties(languages)| == |languages| <==> Distinct(languages) && ProtoKey !in languages
  {
    DistinctIffElementCount(languages);
    var keys := TranslationProperties(languages).Keys;
    if ProtoKey in languages {
      assert Elements(languages) == keys + {ProtoKey};
      assert |Elements(languages)| == |keys| + 1;
    } else {
      assert keys == Elements(languages);
    }
  }

  /** The item-array schema, with the generated language properties under `translations`. */
  function ResponseSchema(translationProperties: map<string, Schema>): (s: Schema)
    ensures s.kind == ARRAY && s.items.Some?
    ensures s.items.value.kind == OBJECT
    ensures s.items.value.required == ["original", "translations"]
    ensures s.items.value.properties.Keys == {"original", "translations"}
    ensures s.items.value.properties["original"].kind == STRING
    ensures s.items.value.properties["translations"].kind == OBJECT
    ensures s.items.value.properties["translations"].properties == translationProperties
  {
    var original := Schema(STRING, Some(OriginalDescription), map[], None, []);
    var translations := Schema(OBJECT, Some(TranslationsDescription), translationProperties, None, []);
    var item := Schema(OBJECT, None, map["original" := original, "translations" := translations], None,
                       ["original", "translations"]);
    Schema(ARRAY, Some(ArrayDescription), map[], Some(item), [])
  }

  /** `languages.join(', ')`, the language list quoted in the prompt. */
  function LanguageList(languages: seq<string>): string {
    Join(languages, ", ")
  }

  /**
   * Reading the prompt's language list back: splitting on commas gives the
   * first code and then every other code behind one space, provided no code
   * holds a comma.
   */
  lemma LanguageListReadBack(languages: seq<string>)
    requires |languages| > 0
    requires forall i :: 0 <= i < |languages| ==> ',' !in languages[i]
    ensures Split(LanguageList(languages), ',') == [languages[0]] + Prefixed(" ", languages[1..])
  {
    assert ", " == [','] + " ";
    SplitJoin(languages, ',', " ");
  }

  function BuildRequest(icuStrings: seq<string>, languages: seq<string>): (r: Request)
    ensures r.model == ModelName && r.strings == icuStrings && r.responseMimeType == "application/json"
    ensures r.languageList == LanguageList(languages)
    ensures r.responseSchema.kind == ARRAY && r.responseSchema.items.Some?
    ensures "translations" in r.responseSchema.items.value.properties
    ensures r.responseSchema.items.value.properties["translations"].properties == TranslationProperties(languages)
  {
    var properties := TranslationProperties(languages);
    var schema := ResponseSchema(properties);
    assert schema.items.value.properties["translations"].properties == properties;
    Request(ModelName, LanguageList(languages), icuStrings, "application/json", schema)
  }

  /** `{original: item.original || '', translations: item.translations || {}}`; reading a property of `null` throws. */
  function NormalizeItem(item: Json): (r: Result<ServiceResult, Thrown>)
    ensures r.Failure? <==> item.JNull?
    ensures r.Failure? ==> r.error == ErrorObject(TypeError, PropertyOfNothingMessage)
    ensures r.Success? ==> r.value.original == Or(Property(item, "original"), JString(""))
    ensures r.Success? ==> r.value.translations == Or(Property(item, "translations"), JObject(map[]))
  {
    if item.JNull? then Failure(ErrorObject(TypeError, PropertyOfNothingMessage))
    else Success(ServiceResult(Or(Property(item, "original"), JString("")),
                               Or(Property(item, "translations"), JObject(map[]))))
  }

  /** `parsedResult.map(...)`: normalises every item in order; the first `null` item throws. */
  function NormalizeItems(items: seq<Json>): (r: Result<seq<ServiceResult>, Thrown>)
    ensures r.Failure? <==> JNull in items
    ensures r.Failure? ==> r.error == ErrorObject(TypeError, PropertyOfNothingMessage)
    ensures r.Success? ==> |r.value| == |items|
    ensures r.Success? ==> forall i :: 0 <= i < |items| ==> NormalizeItem(items[i]) == Success(r.value[i])
  {
    if items == [] then Success([])
    else match (NormalizeItem(items[0]), NormalizeItems(items[1..]))
      case (Success(first), Success(rest)) =>
        assert forall i :: 1 <= i < |items| ==> items[i] == items[1..][i - 1];
        Success([first] + rest)
      case (Failure(e), _) => Failure(e)
      case (_, Failure(e)) =>
        assert JNull in items by { var j :| 0 <= j < |items[1..]| && items[1..][j] == JNull; assert items[j + 1] == JNull; }
        Failure(e)
  }

  /**
   * The body of the `try` block after the model call: trim the reply, reject an
   * empty one, parse it, reject a non-array, normalise the items.
   */
  function ProcessResponse(outcome: CallOutcome, parse: string -> ParseOutcome): (r: Result<seq<ServiceResult>, Thrown>)
  {
    match outcome
    case Threw(e) => Failure(e)
    case Responded(None) => Failure(ErrorObject(TypeError, PropertyOfNothingMessage))
    case Responded(Some(text)) =>
      var responseText := Trim(text);
      if responseText == "" then Failure(ErrorObject(PlainError, EmptyResponseMessage))
      else match parse(responseText)
        case Unparsable => Failure(ErrorObject(SyntaxError, "JSON.parse"))
        case Parsed(v) =>
          if !v.JArray? then Failure(ErrorObject(PlainError, NotArrayMessage))
          else NormalizeItems(v.elems)
  }

  /** The `catch` block: a `SyntaxError` becomes the parse-failure error, anything else the generic fetch error. */
  function Rethrow(e: Thrown): (r: Thrown)
    ensures r.ErrorObject? && r.cls == PlainError
    ensures r.message == (if e.ErrorObject? && e.cls == SyntaxError then ParseFailedMessage else FetchFailedMessage)
  {
    if e.ErrorObject? && e.cls == SyntaxError then ErrorObject(PlainError, ParseFailedMessage)
    else ErrorObject(PlainError, FetchFailedMessage)
  }

  /** `!process.env.API_KEY`: the key is missing when unset or empty. */
  predicate KeyMissing(apiKey: Option<string>) {
    apiKey.None? || apiKey.value == ""
  }

  /**
   * `translateIcuStrings(icuStrings, languages)`. The key check comes before
   * the request is built and is outside the `try`, so its error is not
   * rewritten; every failure after the call is rewritten by `Rethrow`.
   */
  function TranslateIcuStrings(apiKey: Option<string>, icuStrings: seq<string>, languages: seq<string>,
                               call: Request -> CallOutcome, parse: string -> ParseOutcome)
    : (r: Result<seq<ServiceResult>, Thrown>)
    ensures KeyMissing(apiKey) ==> r == Failure(ErrorObject(PlainError, MissingKeyMessage))
    ensures !KeyMissing(apiKey) && r.Failure? ==>
              r.error == ErrorObject(PlainError, ParseFailedMessage) || r.error == ErrorObject(PlainError, FetchFailedMessage)
  {
    if KeyMissing(apiKey) then Failure(ErrorObject(PlainError, MissingKeyMessage))
    else
      match ProcessResponse(call(BuildRequest(icuStrings, languages)), parse)
      case Success(items) => Success(items)
      case Failure(e) => Failure(Rethrow(e))
  }

  /**
   * The request handed to the model call: the model name, JSON output, the
   * strings and the language list, and the schema of an array of objects
   * that require `original` (a string) and `translations` (an object with one
   * string property per requested code).
   */
  lemma RequestCarriesInputs(icuStrings: seq<string>, languages: seq<string>)
    ensures var r := BuildRequest(icuStrings, languages);
      && r.model == ModelName && r.responseMimeType == "application/json"
      && r.strings == icuStrings
      && r.languageList == LanguageList(languages)
      && r.responseSchema.kind == ARRAY && r.responseSchema.description == Some(ArrayDescription)
      && r.responseSchema.items.Some?
    ensures var item := BuildRequest(icuStrings, languages).responseSchema.items.value;
      && item.kind == OBJECT
      && item.required == ["original", "translations"]
      && item.properties.Keys == {"original", "translations"}
      && item.properties["original"].kind == STRING
      && item.properties["original"].description == Some(OriginalDescription)
      && item.properties["translations"].kind == OBJECT
      && item.properties["translations"].description == Some(TranslationsDescription)
      && item.properties["translations"].properties.Keys == Elements(languages) - {ProtoKey}
    ensures var translations := BuildRequest(icuStrings, languages).responseSchema.items.value.properties["translations"];
      forall lang :: lang in translations.properties ==>
        translations.properties[lang].kind == STRING
        && translations.properties[lang].description == Some("The translation in " + lang + ".")
  {
  }

  /**
   * A reply that is blank once trimmed, a reply without text, and a parsed
   * reply that is not an array all end as the generic fetch error: their own
   * messages are replaced in the `catch` block.
   */
  lemma UnusableReplyIsFetchFailure(apiKey: Option<string>, icuStrings: seq<string>, languages: seq<string>,
                                    call: Request -> CallOutcome, parse: string -> ParseOutcome)
    requires !KeyMissing(apiKey)
    requires var outcome := call(BuildRequest(icuStrings, languages));
      || outcome == Responded(None)
      || (outcome.Responded? && outcome.text.Some? && IsBlank(outcome.text.value))
      || (outcome.Responded? && outcome.text.Some? && !IsBlank(outcome.text.value)
          && parse(Trim(outcome.text.value)).Parsed? && !parse(Trim(outcome.text.value)).value.JArray?)
    ensures TranslateIcuStrings(apiKey, icuStrings, languages, call, parse)
            == Failure(ErrorObject(PlainError, FetchFailedMessage))
  {
    var outcome := call(BuildRequest(icuStrings, languages));
    if outcome.Responded? && outcome.text.Some? {
      TrimEmptyIffBlank(outcome.text.value);
    }
  }

  /** Text that `JSON.parse` rejects gives the parse-failure error, never an empty result. */
  lemma UnparsableReplyIsParseFailure(apiKey: Option<string>, icuStrings: seq<string>, languages: seq<string>,
                                      call: Request -> CallOutcome, parse: string -> ParseOutcome, text: string)
    requires !KeyMissing(apiKey)
    requires call(BuildRequest(icuStrings, languages)) == Responded(Some(text))
    requires !IsBlank(text) && parse(Trim(text)) == Unparsable
    ensures TranslateIcuStrings(apiKey, icuStrings, languages, call, parse)
            == Failure(ErrorObject(PlainError, ParseFailedMessage))
  {
    TrimEmptyIffBlank(text);
  }

  /** A value thrown by the model call itself is classified by the same rule. */
  lemma ThrownCallIsClassified(apiKey: Option<string>, icuStrings: seq<string>, languages: seq<string>,
                               call: Request -> CallOutcome, parse: string -> ParseOutcome, e: Thrown)
    requires !KeyMissing(apiKey)
    requires call(BuildRequest(icuStrings, languages)) == Threw(e)
    ensures TranslateIcuStrings(apiKey, icuStrings, languages, call, parse) == Failure(
              ErrorObject(PlainError, if e.ErrorObject? && e.cls == SyntaxError then ParseFailedMessage else FetchFailedMessage))
  {
  }

  /**
   * A parsed array gives one result per item, in order, each item defaulted
   * on its own; an empty array gives an empty result. A `null` item makes the
   * whole batch fail with the generic fetch error.
   */
  lemma ArrayReplyIsNormalized(apiKey: Option<string>, icuStrings: seq<string>, languages: seq<string>,
                               call: Request -> CallOutcome, parse: string -> ParseOutcome, text: string, items: seq<Json>)
    requires !KeyMissing(apiKey)
    requires call(BuildRequest(icuStrings, languages)) == Responded(Some(text))
    requires !IsBlank(text) && parse(Trim(text)) == Parsed(JArray(items))
    ensures var r := TranslateIcuStrings(apiKey, icuStrings, languages, call, parse);
      && (JNull !in items ==>
            r.Success? && |r.value| == |items| && forall i :: 0 <= i < |items| ==> NormalizeItem(items[i]) == Success(r.value[i]))
      && (items == [] ==> r == Success([]))
      && (JNull in items ==> r == Failure(ErrorObject(PlainError, FetchFailedMessage)))
    ensures var r := TranslateIcuStrings(apiKey, icuStrings, languages, call, parse);
      JNull !in items ==> forall i :: 0 <= i < |items| ==>
        && r.value[i].original
           == (if items[i].JObject? && "original" in items[i].fields && Truthy(items[i].fields["original"])
               then items[i].fields["original"] else JString(""))
        && r.value[i].translations
           == (if items[i].JObject? && "translations" in items[i].fields && Truthy(items[i].fields["translations"])
               then items[i].fields["translations"] else JObject(map[]))
  {
    TrimEmptyIffBlank(text);
  }
}
