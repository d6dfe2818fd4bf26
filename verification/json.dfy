/**
 * Decoded JSON payloads as the HTTP client hands them to the services.
 * A missing property (`undefined`) is `None` where a property is looked up.
 */
module Json {
  import opened Wrappers
  import opened JsText

  datatype Json =
    | JNull
    | JBool(b: bool)
    | JNum(n: int)
    | JStr(s: string)
    | JArr(items: seq<Json>)
    | JObj(fields: map<string, Json>)

  /** `typeof v === 'object' && v !== null && key in v` (arrays have no string keys here) */
  predicate HasKey(v: Json, key: string)
  {
    v.JObj? && key in v.fields
  }

  /** `v[key]` for an object; `undefined` (`None`) when the key is absent. */
  function Get(v: Json, key: string): (r: Option<Json>)
    ensures r.Some? <==> HasKey(v, key)
    ensures r.Some? ==> r.value == v.fields[key]
  {
    if HasKey(v, key) then Some(v.fields[key]) else None
  }

  /** `a ?? b` on possibly-undefined JSON values. */
  function Coalesce(a: Option<Json>, b: Option<Json>): (r: Option<Json>)
    ensures a.Some? && a.value != JNull ==> r == a
    ensures (a.None? || a.value == JNull) ==> r == b
  {
    if a.Some? && a.value != JNull then a else b
  }

  /**
   * `Number(v)` for a JSON value or `undefined`; NaN is `None`.
   * `null`, `false` and `[]` are 0, `true` is 1, strings are read as decimal integers,
   * objects and `undefined` are NaN. A one-element array is read through its
   * text, which for `null` is "" and for a nested array is that array's own
   * text: so `[[5]]` is 5 and `[[]]` is 0, while `[true]` ("true") is NaN.
   */
  function ToNumber(v: Option<Json>): (r: Option<int>)
    ensures v == Some(JNull) || v == Some(JBool(false)) || v == Some(JArr([])) ==> r == Some(0)
    ensures v == Some(JBool(true)) ==> r == Some(1)
    ensures v.Some? && v.value.JNum? ==> r == Some(v.value.n)
    ensures v.None? || (v.Some? && v.value.JObj?) ==> r.None?
  {
    match v
    case None => None
    case Some(j) => JsonToNumber(j)
  }

  function JsonToNumber(v: Json): Option<int>
  {
    match v
    case JNull => Some(0)
    case JBool(b) => if b then Some(1) else Some(0)
    case JNum(n) => Some(n)
    case JStr(s) => StringToNumber(s)
    case JArr(items) =>
      if |items| == 0 then Some(0)
      else if |items| == 1 then
        match items[0]
        case JNull => Some(0)
        case JNum(n) => Some(n)
        case JStr(s) => StringToNumber(s)
        case JArr(_) => JsonToNumber(items[0])
        case _ => None
      else None
    case JObj(_) => None
  }

  /** A nested one-element array reads through to its element; `[true]` is still NaN. */
  lemma NestedArrayNumbers()
    ensures ToNumber(Some(JArr([JArr([JNum(5)])]))) == Some(5)
    ensures ToNumber(Some(JArr([JArr([])]))) == Some(0)
    ensures ToNumber(Some(JArr([JBool(true)]))).None?
  {
  }

  /** JavaScript truthiness of a JSON value. */
  predicate IsTruthy(v: Json)
  {
    match v
    case JNull => false
    case JBool(b) => b
    case JNum(n) => n != 0
    case JStr(s) => s != ""
    case _ => true
  }

  /** `Array.isArray(v) && v.length > 0` */
  predicate IsNonEmptyList(v: Json)
  {
    v.JArr? && |v.items| > 0
  }

  /**
   * `unwrapResource`: an object carrying a `data` property yields that
   * property, anything else is returned as it is.
   */
  function UnwrapResource(payload: Json): (r: Json)
    ensures HasKey(payload, "data") ==> r == payload.fields["data"]
    ensures !HasKey(payload, "data") ==> r == payload
  {
    if HasKey(payload, "data") then payload.fields["data"] else payload
  }

  /** Wrapping a value in `data` and unwrapping it gives the value back. */
  lemma UnwrapResourceOfWrapped(v: Json)
    ensures UnwrapResource(JObj(map["data" := v])) == v
  {
  }

  /** `String(v)`; inside an array `null` is written as nothing and elements are joined by commas. */
  function JsString(v: Json): string
    decreases v, 1
  {
    match v
    case JNull => "null"
    case JBool(b) => if b then "true" else "false"
    case JNum(n) => IntToString(n)
    case JStr(s) => s
    case JArr(items) => Join(seq(|items|, i requires 0 <= i < |items| => ElementString(items[i], v)), ",")
    case JObj(_) => "[object Object]"
  }

  /** An array element as `Array.prototype.join` writes it. */
  function ElementString(e: Json, parent: Json): string
    requires e < parent
    decreases parent, 0
  {
    if e == JNull then "" else JsString(e)
  }

  /**
   * `coerceToString`: strings unchanged, `null` and `undefined` empty,
   * anything else through `String`.
   */
  function CoerceToString(v: Option<Json>): (r: string)
    ensures v.None? || v == Some(JNull) ==> r == ""
    ensures v.Some? && v.value.JStr? ==> r == v.value.s
    ensures v.Some? && v.value.JNum? ==> r == IntToString(v.value.n)
    ensures v.Some? && v.value != JNull && !v.value.JStr? ==> r == JsString(v.value)
  {
    match v
    case None => ""
    case Some(JNull) => ""
    case Some(JStr(s)) => s
    case Some(other) => JsString(other)
  }

  /** A one-element array reads as its element, and an array holding only `null` as nothing. */
  lemma CoerceSingletonArray(e: Json)
    ensures e.JStr? ==> CoerceToString(Some(JArr([e]))) == e.s
    ensures e == JNull ==> CoerceToString(Some(JArr([e]))) == ""
  {
    var v := JArr([e]);
    assert [e][0] == e;
    assert e < v;
    assert JsString(v) == Join(seq(1, i requires 0 <= i < 1 => ElementString(v.items[i], v)), ",");
    assert seq(1, i requires 0 <= i < 1 => ElementString(v.items[i], v)) == [ElementString(e, v)];
  }
}
