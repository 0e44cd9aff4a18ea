/** The decoded JSON values the client sees, with the two Python notions the
    listener's dispatch test depends on: truthiness and hashability. */
module JsonModel {

  /** A value as `json.loads` returns it. Numbers are integers here. */
  datatype Json =
    | JNull
    | JBool(b: bool)
    | JNum(n: int)
    | JStr(s: string)
    | JArr(items: seq<Json>)
    | JObj(fields: map<string, Json>)

  /** Python truthiness: `None`, `False`, `0`, `""`, `[]` and `{}` are false. */
  predicate Truthy(j: Json)
  {
    match j
    case JNull => false
    case JBool(b) => b
    case JNum(n) => n != 0
    case JStr(s) => s != ""
    case JArr(items) => |items| > 0
    case JObj(fields) => |fields| > 0
  }

  /** Lists and dicts cannot be dictionary keys: testing one for membership raises `TypeError`. */
  predicate Hashable(j: Json)
  {
    !j.JArr? && !j.JObj?
  }

  /** `fields.get(key, default)`. */
  function GetOr(fields: map<string, Json>, key: string, default: Json): Json
  {
    if key in fields then fields[key] else default
  }
}
