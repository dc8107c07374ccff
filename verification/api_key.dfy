/** The API-key gate: the `X-API-Key` header must be present and equal the
    configured `API_KEY`. */
module ApiKeyAuth {
  import opened Http

  function Reject(message: string): (r: Outcome<()>)
    ensures r.Halt? && r.response.status == 401 && r.response.body == Fields(map["error" := message])
  {
    Halt(Response(401, Fields(map["error" := message])))
  }

  /** `ValidateAPIKey`; the configured key is a parameter. */
  function ValidateApiKey(apiKey: string, expected: string): (r: Outcome<()>)
    ensures r.Next? <==> apiKey != "" && apiKey == expected
    ensures apiKey == "" ==> r == Reject("API key is missing")
    ensures apiKey != "" && apiKey != expected ==> r == Reject("Invalid API key")
  {
    if apiKey == "" then Reject("API key is missing")
    else if apiKey != expected then Reject("Invalid API key")
    else Next(())
  }

  /** An unset `API_KEY` locks every request out rather than letting all in. */
  lemma UnsetKeyRejectsAll(apiKey: string)
    ensures ValidateApiKey(apiKey, "").Halt?
  {
  }
}
