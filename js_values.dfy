/**
 * The JavaScript values the translation service handles at run time: what
 * `JSON.parse` can produce, how `||` judges them, and what `throw` can carry.
 */
module JsValues {
  import opened Wrappers

  /** A value produced by `JSON.parse`. */
  datatype Json =
    | JNull
    | JBool(b: bool)
    | JNumber(n: real)
    | JString(s: string)
    | JArray(elems: seq<Json>)
    | JObject(fields: map<string, Json>)

  /** JavaScript truthiness: `null`, `false`, `0` and `""` are falsy; arrays and objects are truthy. */
  predicate Truthy(v: Json) {
    match v
    case JNull => false
    case JBool(b) => b
    case JNumber(n) => n != 0.0
    case JString(s) => s != ""
    case JArray(_) => true
    case JObject(_) => true
  }

  /** `a || b`: the left operand when truthy, otherwise the right one. */
  function Or(a: Option<Json>, b: Json): (r: Json)
    ensures a.Some? && Truthy(a.value) ==> r == a.value
    ensures a.None? || !Truthy(a.value) ==> r == b
  {
    if a.Some? && Truthy(a.value) then a.value else b
  }

  /**
   * Reading property `key` of a non-null value: the field of an object, and
   * `undefined` (None) for an absent field or for a boolean, number, string or
   * array, none of which has such a property. Reading a property of `null`
   * throws instead; callers handle that case first.
   */
  function Property(v: Json, key: string): (r: Option<Json>)
    requires !v.JNull?
    ensures r.Some? <==> v.JObject? && key in v.fields
    ensures r.Some? ==> r.value == v.fields[key]
  {
    if v.JObject? && key in v.fields then Some(v.fields[key]) else None
  }

  /** The built-in error constructors a thrown `Error` can come from. */
  datatype ErrorClass = PlainError | SyntaxError | TypeError

  /** A thrown value: an `Error` instance with its class and message, or anything else. */
  datatype Thrown =
    | ErrorObject(cls: ErrorClass, message: string)
    | NonError(value: Json)
}
