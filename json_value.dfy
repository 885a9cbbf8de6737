/**
 * Decoded JSON values as the Python code sees them after `json.loads` or
 * `response.json()`, together with the two pieces of Python semantics the
 * handlers rely on: `dict.get` with a default, and truthiness (`if not x`).
 */
module JsonValue {

  /** A JSON value; numbers are kept as exact reals, nothing computes with them. */
  datatype Json =
    | JNull
    | JBool(b: bool)
    | JNum(n: real)
    | JStr(s: string)
    | JArr(items: seq<Json>)
    | JObj(fields: map<string, Json>)

  /** Python's `d.get(key, default)` on a dict. */
  function Get(d: map<string, Json>, key: string, default: Json): (v: Json)
    ensures key in d ==> v == d[key]
    ensures key !in d ==> v == default
  {
    if key in d then d[key] else default
  }

  /** Python truthiness of a decoded value: None, False, 0, and empty containers are false. */
  predicate Truthy(v: Json) {
    match v
    case JNull => false
    case JBool(b) => b
    case JNum(n) => n != 0.0
    case JStr(s) => s != []
    case JArr(items) => items != []
    case JObj(fields) => fields != map[]
  }

  /** `key` is absent from `d` or maps to a string (what `d.get(key, '').upper()` needs). */
  predicate StringOrAbsent(d: map<string, Json>, key: string) {
    key in d ==> d[key].JStr?
  }

  /** `key` is absent from `d` or maps to an object (what `d.get(key, {}).get(...)` needs). */
  predicate ObjectOrAbsent(d: map<string, Json>, key: string) {
    key in d ==> d[key].JObj?
  }
}
