/**
 * Decoded JSON values, as `json.loads` returns them: None, bool, int, str, list, dict.
 * Floating-point numbers are not modelled.
 */
module JsonValues {
  import opened Wrappers

  datatype Json =
    | JNull
    | JBool(b: bool)
    | JNum(n: int)
    | JStr(s: string)
    | JArr(items: seq<Json>)
    | JObj(fields: map<string, Json>)

  /** The empty mapping `{}`. */
  const EmptyObject: Json := JObj(map[])

  /** Python truthiness of a decoded value (`if value:`). */
  predicate Truthy(j: Json) {
    match j
    case JNull => false
    case JBool(b) => b
    case JNum(n) => n != 0
    case JStr(s) => s != ""
    case JArr(items) => items != []
    case JObj(fields) => fields != map[]
  }

  /** `d.get(key)` on a dict: the value, or absent. */
  function Get(fields: map<string, Json>, key: string): (r: Option<Json>)
    ensures r.Some? <==> key in fields
    ensures r.Some? ==> r.value == fields[key]
  {
    if key in fields then Some(fields[key]) else None
  }
}
