/**
 * JSON values as the backend receives them from `request.get_json()` and
 * hands them to `jsonify`. Numbers are modelled as integers only.
 */
module JsonData {
  datatype Json =
    | JNull
    | JBool(b: bool)
    | JNum(n: int)
    | JStr(s: string)
    | JArray(items: seq<Json>)
    | JObject(fields: map<string, Json>)
}
