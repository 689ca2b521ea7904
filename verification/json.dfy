/** The exchange value that crosses every type-erased adapter boundary: an abstract JSON value.
    Objects are finite maps from keys to values, as in a JSON object without duplicate keys. */
module JsonValue {

  datatype Json =
    | JNull
    | JBool(b: bool)
    | JNumber(n: int)
    | JString(s: string)
    | JArray(items: seq<Json>)
    | JObject(fields: map<string, Json>)
}
