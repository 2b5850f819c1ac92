/**
 * The JSON values the scripts read back with `json.loads`, and the lines of a
 * JSON-lines file as the reading loops classify them.
 */
module Json {

  /** A decoded JSON value; objects keep their keys, not the order of their keys. */
  datatype Json =
    | JNull
    | JBool(b: bool)
    | JNumber(n: real)
    | JString(str: string)
    | JArray(items: seq<Json>)
    | JObject(fields: map<string, Json>)

  /**
   * One line of a JSON-lines file: empty once stripped, not decodable by
   * `json.loads`, or decoded to a value.
   */
  datatype Line = Blank | Malformed | Parsed(value: Json)

  /** Python's truth value of the decoded object (`not x` is `!Truthy(x)`). */
  predicate Truthy(j: Json)
  {
    match j
    case JNull => false
    case JBool(b) => b
    case JNumber(n) => n != 0.0
    case JString(s) => s != ""
    case JArray(items) => items != []
    case JObject(fields) => fields != map[]
  }

  /** Python's `d.get(key, default)` on a decoded object. */
  function Get(fields: map<string, Json>, key: string, default: Json): Json
  {
    if key in fields then fields[key] else default
  }
}
