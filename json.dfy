/**
 * Decoded JSON values as Python's json module produces them (dict, list, str,
 * int, bool, None), Python truthiness on them, and the shape of an HTTP reply.
 * Floating-point numbers are not modelled.
 */
module Json {

  datatype Json =
    | JNull
    | JBool(b: bool)
    | JInt(i: int)
    | JStr(s: string)
    | JArr(items: seq<Json>)
    | JObj(fields: map<string, Json>)

  /** `bool(v)` in Python: None, False, 0, "", [] and {} are false, everything else true. */
  predicate Truthy(v: Json) {
    match v
    case JNull => false
    case JBool(b) => b
    case JInt(i) => i != 0
    case JStr(s) => s != []
    case JArr(a) => a != []
    case JObj(m) => m != map[]
  }

  /** `d.get(key, default)` on a dict. */
  function Get(d: map<string, Json>, key: string, default: Json): Json {
    if key in d then d[key] else default
  }

  /** A Flask reply: an HTTP status code and a JSON body. */
  datatype Reply = Reply(code: int, body: Json)

  /** Flask's answer to an exception the route does not catch. */
  const InternalServerError := Reply(500, JStr("Internal Server Error"))

  function ErrorReply(code: int, message: string): Reply {
    Reply(code, JObj(map["error" := JStr(message)]))
  }
}
