/** The request both `callExternalApi` helpers hand to the HTTP client: the
    account service's base URL joined with a relative path, a bearer API
    key, and the payload as query parameters for GET or as the body for
    POST. The HTTP exchange itself is an input: its outcome is passed in. */
module ApiRequest {
  import opened Wrappers
  import opened Js

  datatype Request = Request(
    verb: string,
    url: string,
    headers: seq<(string, string)>,
    params: Option<Object>,
    data: Option<Object>)

  /** A JSON response body: `null` or an object. */
  datatype Body = NullBody | ObjectBody(fields: Object)

  /** Property read on a response body; `None` where reading from `null`
      throws a `TypeError`. */
  function Field(b: Body, k: string): Option<Value> {
    match b
    case NullBody => None
    case ObjectBody(o) => Some(Get(o, k))
  }

  /** The request for `callExternalApi(verb, relativePath, payload)`; a
      `None` payload is `null` or omitted. */
  function Build(baseUrl: Value, apiKey: Value, verb: string, relativePath: string, payload: Option<Object>): (r: Request)
    ensures r.verb == verb
    ensures r.url == ToStr(baseUrl) + relativePath
    ensures r.headers == [("Authorization", "Bearer " + ToStr(apiKey)), ("Accept", "application/json")]
    ensures r.params.Some? <==> Upper(verb) == "GET" && payload.Some?
    ensures r.data.Some? <==> Upper(verb) == "POST" && payload.Some?
    ensures r.params.Some? ==> r.params == payload
    ensures r.data.Some? ==> r.data == payload
  {
    var upper := Upper(verb);
    Request(
      verb,
      ToStr(baseUrl) + relativePath,
      [("Authorization", "Bearer " + ToStr(apiKey)), ("Accept", "application/json")],
      if upper == "GET" then payload else None,
      if upper == "POST" then payload else None)
  }

  /** The payload travels in at most one place, and a verb other than GET
      or POST carries none of it. */
  lemma PayloadCarriedOnce(baseUrl: Value, apiKey: Value, verb: string, relativePath: string, payload: Option<Object>)
    ensures var r := Build(baseUrl, apiKey, verb, relativePath, payload);
      !(r.params.Some? && r.data.Some?) &&
      (Upper(verb) != "GET" && Upper(verb) != "POST" ==> r.params.None? && r.data.None?)
  {
  }

  /** Letter case of the verb does not matter: two verbs that upper-case
      alike send the payload the same way to the same place. */
  lemma MethodCaseInsensitive(baseUrl: Value, apiKey: Value, verb1: string, verb2: string,
                              relativePath: string, payload: Option<Object>)
    requires Upper(verb1) == Upper(verb2)
    ensures var r1 := Build(baseUrl, apiKey, verb1, relativePath, payload);
      var r2 := Build(baseUrl, apiKey, verb2, relativePath, payload);
      r1.url == r2.url && r1.headers == r2.headers && r1.params == r2.params && r1.data == r2.data
  {
  }
}
