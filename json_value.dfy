/**
 * The values `json.loads` produces, as the application inspects them:
 * `isinstance(x, dict)`, `dict.get(key, default)`, `key in d` and Python
 * truthiness (`if not exercises`).
 */
module JsonValue {

  datatype Json =
    | JNull
    | JBool(b: bool)
    | JNumber(n: real)
    | JString(s: string)
    | JArray(items: seq<Json>)
    | JObject(fields: map<string, Json>)

  /** The empty list `[]`. */
  const EmptyList: Json := JArray([])

  /** Python truthiness of a decoded value: `None`, `False`, zero, `""`, `[]`
      and `{}` are false. */
  predicate Truthy(j: Json)
  {
    match j
    case JNull => false
    case JBool(b) => b
    case JNumber(n) => n != 0.0
    case JString(s) => s != ""
    case JArray(items) => items != []
    case JObject(fields) => fields != map[]
  }

  /** `d.get(key, default)` on a dictionary. */
  function Get(fields: map<string, Json>, key: string, default: Json): Json
  {
    if key in fields then fields[key] else default
  }
}
