/**
 * The untyped JSON value (`serde_json::Value`) that the transport hands back.
 * An object's members form a map from key to value, as serde_json's `Map` does.
 */
module Json {

  datatype Json =
    | JNull
    | JBool(b: bool)
    | JNumber(n: int)
    | JString(s: string)
    | JArray(items: seq<Json>)
    | JObject(members: map<string, Json>)
}
