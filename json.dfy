/**
 * The JSON values that request bodies carry and that the registry stores verbatim
 * (agent URLs, API URLs, descriptions, owners, capability and tag lists).
 * Numbers are integers only.
 */
module JsonValue {

  datatype Json =
    | JNull
    | JBool(b: bool)
    | JNum(n: int)
    | JStr(s: string)
    | JArr(items: seq<Json>)
    | JObj(fields: map<string, Json>)

  /** Python's `bool(v)` on a decoded JSON value. */
  predicate Truthy(v: Json): (b: bool)
    ensures !b <==> v in {JNull, JBool(false), JNum(0), JStr(""), JArr([]), JObj(map[])}
  {
    match v
    case JNull => false
    case JBool(b) => b
    case JNum(n) => n != 0
    case JStr(s) => s != ""
    case JArr(items) => items != []
    case JObj(fields) => fields != map[]
  }

  /** Python's `data.get(key, dflt)` on a JSON object. */
  function FieldOr(data: map<string, Json>, key: string, dflt: Json): (v: Json)
    ensures key in data ==> v == data[key]
    ensures key !in data ==> v == dflt
  {
    if key in data then data[key] else dflt
  }
}
