/**
  Decoded JSON values as the Python handlers see them after `request.get_json()`,
  with Python's truthiness and `dict.get`. Floating-point numbers are not modelled:
  every JSON number is an integer here.
 */
module Json {
  datatype Json =
    | JNull
    | JBool(b: bool)
    | JInt(n: int)
    | JStr(s: string)
    | JList(items: seq<Json>)
    | JObject(fields: map<string, Json>)

  /** Python's `bool(v)` for the value `json.loads` produces. */
  predicate Truthy(v: Json): (t: bool)
    ensures !t <==> v in {JNull, JBool(false), JInt(0), JStr(""), JList([]), JObject(map[])}
  {
    match v
    case JNull => false
    case JBool(b) => b
    case JInt(n) => n != 0
    case JStr(s) => s != ""
    case JList(items) => items != []
    case JObject(fields) => fields != map[]
  }

  /** Python's `obj.get(key, default)`; `obj.get(key)` is `GetOr(obj, key, JNull)`. */
  function GetOr(obj: map<string, Json>, key: string, default: Json): Json {
    if key in obj then obj[key] else default
  }

  /** A handler's reply: the HTTP status code and the JSON object `jsonify` sends. */
  datatype Response = Response(code: int, body: map<string, Json>)

  /** The `{'success': False, 'error': message}` reply the route handlers use for every failure. */
  function Failure(code: int, message: string): Response {
    Response(code, map["success" := JBool(false), "error" := JStr(message)])
  }
}
