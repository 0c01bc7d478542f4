/**
 * The JSON values the engine writes with `encoding/json`. Objects are Go maps, so
 * their keys carry no order.
 */
module Json {

  import opened Common

  datatype Json =
    | JNull
    | JBool(b: bool)
    | JInt(i: int)
    | JReal(r: real)
    | JString(s: string)
    | JArray(items: seq<Json>)
    | JObject(fields: map<string, Json>)

  /** A Go `*time.Duration` field: `null` when the pointer is nil, else the nanosecond count. */
  function NullableInt(v: Option<int>): Json
  {
    match v
    case None => JNull
    case Some(n) => JInt(n)
  }
}
