/**
  Values produced by JSON.parse, and the two pieces of JavaScript semantics the
  module relies on when it inspects them: truthiness and property lookup.
 */
module JsonValues {
  import opened Wrappers

  /** A parsed JSON value. Numbers are abstracted as reals; only their truthiness (zero or not) matters here. */
  datatype Json =
    | JNull
    | JBool(b: bool)
    | JNumber(n: real)
    | JString(s: string)
    | JArray(items: seq<Json>)
    | JObject(fields: map<string, Json>)

  /** JavaScript truthiness of a parsed value: null, false, 0 and "" are falsy, arrays and objects are truthy. */
  predicate Truthy(j: Json) {
    match j
    case JNull => false
    case JBool(b) => b
    case JNumber(n) => n != 0.0
    case JString(s) => s != ""
    case JArray(_) => true
    case JObject(_) => true
  }

  /**
    `j[key]` on a parsed value, with None for `undefined`. Only objects carry
    own properties; a lookup of `message`, `error_summary` or `status` on a
    string, number, boolean or array yields undefined.
   */
  function Field(j: Json, key: string): (r: Option<Json>)
    ensures r.Some? <==> j.JObject? && key in j.fields
    ensures r.Some? ==> r.value == j.fields[key]
  {
    if j.JObject? && key in j.fields then Some(j.fields[key]) else None
  }

  /** The falsy values are exactly null, false, the number zero and the empty string. */
  lemma FalsyValues(j: Json)
    ensures !Truthy(j) <==> j == JNull || j == JBool(false) || j == JNumber(0.0) || j == JString("")
  {
  }
}
