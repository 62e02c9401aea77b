/** JavaScript values as the handlers receive them, and the coercions the source applies. */
module Js {
  import opened Wrappers

  /**
   * A request value on its way through `Number(value)`: the three values `normalizeInteger`
   * tests for first, the finite number `Number` yields, or a non-finite one (NaN, an
   * unparseable string, an infinity). What `Number` makes of a string is taken as given.
   */
  datatype JsInput = Undefined | Null | EmptyString | Finite(n: real) | NonFinite

  /** An integer read back from a nullable SQLite integer column. */
  function Column(v: int): JsInput {
    Finite(v as real)
  }

  /**
   * `normalizeInteger(value, fallback)`: the floor of a finite number, otherwise the fallback.
   */
  function NormalizeInteger(value: JsInput, fallback: int): int {
    match value
    case Finite(n) => n.Floor
    case _ => fallback
  }

  /** A finite input is rounded down to the integer below it; anything else gives the fallback. */
  lemma NormalizeIntegerBounds(value: JsInput, fallback: int)
    ensures var r := NormalizeInteger(value, fallback);
      && (value.Finite? ==> r as real <= value.n < r as real + 1.0)
      && (!value.Finite? ==> r == fallback)
  {
  }

  /** An integer passes through `normalizeInteger` unchanged. */
  lemma NormalizeIntegerOfInt(v: int, fallback: int)
    ensures NormalizeInteger(Column(v), fallback) == v
  {
  }

  /** A JSON value, the result of `JSON.parse`. */
  datatype Json =
    | JNull
    | JBool(b: bool)
    | JNumber(n: real)
    | JString(s: string)
    | JArray(items: seq<Json>)
    | JObject(fields: seq<(string, Json)>)

  /** JavaScript falsiness of a parsed JSON value (NaN never comes out of `JSON.parse`). */
  predicate Falsy(v: Json) {
    match v
    case JNull => true
    case JBool(b) => !b
    case JNumber(n) => n == 0.0
    case JString(s) => s == ""
    case _ => false
  }

  /**
   * `obj.key` on a parsed value: the value of the field named `key` (the last one when the
   * text repeats the key, as `JSON.parse` keeps the last), or `undefined` (`None`).
   */
  function Property(v: Json, key: string): (r: Option<Json>)
    ensures r.Some? ==> v.JObject?
  {
    if v.JObject? then Lookup(v.fields, key) else None
  }

  function Lookup(fields: seq<(string, Json)>, key: string): (r: Option<Json>)
    ensures r.Some? <==> exists i :: 0 <= i < |fields| && fields[i].0 == key
  {
    if fields == [] then None
    else if fields[|fields| - 1].0 == key then Some(fields[|fields| - 1].1)
    else Lookup(fields[..|fields| - 1], key)
  }
}
