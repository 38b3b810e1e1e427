/**
 * JSON values as the host runtime's JSON.parse returns them, and the few
 * JavaScript property tests the pipeline applies to them.
 *
 * JSON.parse itself is a foreign library call: it is never defined here.
 * Every stage takes it as a parameter `parse: Parser`, an arbitrary total
 * function from text to an optional value (None stands for "throws"), and
 * every parse-dependent property is stated relative to it.
 */
module Json {
  import opened Wrappers

  datatype Json =
    | JNull
    | JBool(b: bool)
    | JNumber(n: real)
    | JString(s: string)
    | JArray(items: seq<Json>)
    | JObject(fields: map<string, Json>)

  /** The JSON.parse oracle: None when it would throw. */
  type Parser = seq<char> -> Option<Json>

  /** `v && typeof v === "object"`: null is falsy, arrays are objects. */
  predicate IsTruthyObject(v: Json) {
    v.JObject? || v.JArray?
  }

  /**
   * Reading own property `key` of a parsed value that is not null (reading
   * a property of null throws, so callers deal with JNull first). Only
   * objects are looked into; None stands for undefined.
   */
  function Property(v: Json, key: string): Option<Json>
    requires !v.JNull?
  {
    match v
    case JObject(fields) => if key in fields then Some(fields[key]) else None
    case _ => None
  }
}
