/** The backend's response envelopes: `{message, data}` on success, `{message[, errors]}` on error. */
module Responses {
  import opened Wrappers
  import opened JsonData

  /** A response: its HTTP status and the JSON object `jsonify` is given. */
  datatype Response = Response(status: int, body: map<string, Json>)

  /** The field-error dictionary as JSON. */
  function ErrorsJson(errors: map<string, string>): (j: Json)
    ensures j.JObject? && j.fields.Keys == errors.Keys
    ensures forall k :: k in errors ==> j.fields[k] == JStr(errors[k])
  {
    JObject(map k | k in errors :: JStr(errors[k]))
  }

  /** `success_response`: exactly `message` and `data`, status 200 unless given. */
  function SuccessResponse(data: Json := JNull, message: string := "Success", status: int := 200): (r: Response)
    ensures r.status == status
    ensures r.body.Keys == {"message", "data"}
    ensures r.body["message"] == JStr(message) && r.body["data"] == data
  {
    Response(status, map["message" := JStr(message), "data" := data])
  }

  /**
   * `error_response`: always `message`, never `data`, and `errors` only when
   * a non-empty dictionary is given; status 400 unless given.
   */
  function ErrorResponse(message: string := "An error occurred", status: int := 400,
                         errors: Option<map<string, string>> := None): (r: Response)
    ensures r.status == status
    ensures "message" in r.body && r.body["message"] == JStr(message)
    ensures "data" !in r.body
    ensures r.body.Keys <= {"message", "errors"}
    ensures "errors" in r.body <==> errors.Some? && errors.value != map[]
    ensures "errors" in r.body ==> r.body["errors"] == ErrorsJson(errors.value)
  {
    var response := map["message" := JStr(message)];
    if errors.Some? && errors.value != map[] then
      Response(status, response["errors" := ErrorsJson(errors.value)])
    else
      Response(status, response)
  }

  /** Omitted arguments give the documented defaults. */
  lemma ResponseDefaults()
    ensures SuccessResponse().status == 200 && SuccessResponse().body["data"] == JNull
    ensures SuccessResponse().body["message"] == JStr("Success")
    ensures ErrorResponse().status == 400 && ErrorResponse().body.Keys == {"message"}
    ensures ErrorResponse().body["message"] == JStr("An error occurred")
  {
  }
}
