/**
 * JavaScript values as the backend and the client see them: request payloads,
 * response bodies and model instances, with JavaScript's truthiness.
 * Numbers are integers: floating point is outside the model.
 */
module Json {

  datatype Json =
    | JUndefined
    | JNull
    | JBool(b: bool)
    | JNum(n: int)
    | JStr(s: string)
    | JArr(items: seq<Json>)
    | JObj(fields: map<string, Json>)

  /** JavaScript truthiness (`if (v)`): `undefined`, `null`, `false`, `0` and `''` are falsy. */
  predicate Truthy(v: Json) {
    match v
    case JUndefined => false
    case JNull => false
    case JBool(b) => b
    case JNum(n) => n != 0
    case JStr(s) => s != ""
    case JArr(_) => true
    case JObj(_) => true
  }

  /** `o[key]` on a plain object: a missing key reads as `undefined`. */
  function Get(m: map<string, Json>, key: string): (v: Json)
    ensures key !in m ==> v == JUndefined
    ensures key in m ==> v == m[key]
  {
    if key in m then m[key] else JUndefined
  }

  /** `key in v` for an object value; arrays and primitives have none of the keys used here. */
  predicate HasKey(v: Json, key: string) {
    v.JObj? && key in v.fields
  }

  /** `v || fallback`. */
  function OrElse(v: Json, fallback: Json): (r: Json)
    ensures Truthy(v) ==> r == v
    ensures !Truthy(v) ==> r == fallback
  {
    if Truthy(v) then v else fallback
  }

  /** `{ statusCode, message, data }`: the response envelope of the controllers and the transform interceptor. */
  function Envelope(statusCode: int, message: string, data: Json): (v: Json)
    ensures HasKey(v, "statusCode") && HasKey(v, "message") && HasKey(v, "data")
    ensures v.fields.Keys == {"statusCode", "message", "data"}
    ensures v.fields["statusCode"] == JNum(statusCode) && v.fields["message"] == JStr(message)
    ensures v.fields["data"] == data
  {
    JObj(map["statusCode" := JNum(statusCode), "message" := JStr(message), "data" := data])
  }
}
