/** The Google sign-in routes of `src/routes/auth.js`: the authorize
    redirect, the callback that asks the account service whether the Google
    email is linked and for a JWT, the link endpoint, and the route file's
    own `callExternalApi`. Every HTTP exchange and the ID-token check are
    inputs; the routes' decisions on their answers are the model. */
module AuthRoutes {
  import opened Wrappers
  import opened Js
  import opened Text
  import Url
  import ApiRequest
  import Apps

  type Env = map<string, string>

  /** Google's authorization endpoint, https://accounts.google.com/o/oauth2/v2/auth. */
  const GoogleAuthEndpoint := "https" + "://accounts" + ".google.com" + "/o/oauth2" + "/v2/auth"

  lemma EndpointWellFormed()
    ensures Url.WellFormedLocation(GoogleAuthEndpoint)
  {
    EndpointScheme();
    EndpointHasNoQuery();
  }

  lemma EndpointScheme()
    ensures Url.HasScheme(GoogleAuthEndpoint)
  {
    var rest := "://accounts" + ".google.com" + "/o/oauth2" + "/v2/auth";
    assert GoogleAuthEndpoint == "https" + rest;
    assert GoogleAuthEndpoint[..5] == "https";
    assert rest[0] == ':';
    IndexOfUnique(GoogleAuthEndpoint, ':', 5);
  }

  lemma EndpointHasNoQuery()
    ensures '?' !in GoogleAuthEndpoint
  {
    assert '?' !in "https" && '?' !in "://accounts" && '?' !in ".google.com" && '?' !in "/o/oauth2" && '?' !in "/v2/auth";
  }

  // ---------------------------------------------------------------------
  // The authorize redirect

  /** The parameters `/google` appends, in order; `append` turns each value
      into a string. */
  function AuthorizeParams(clientId: Value, redirectUri: Value): seq<Url.Pair> {
    [("client_id", ToStr(clientId)),
     ("redirect_uri", ToStr(redirectUri)),
     ("response_type", "code"),
     ("scope", "profile email")]
  }

  /** The URL `/google` redirects to, the four parameters appended to an
      empty query: read back, it is Google's endpoint with exactly them. */
  function AuthorizeUrl(clientId: Value, redirectUri: Value): (r: string)
    ensures Url.Parse(r) == Some(Url.Url(GoogleAuthEndpoint, AuthorizeParams(clientId, redirectUri)))
  {
    AuthorizeRoundTrip(clientId, redirectUri);
    Url.Serialize(Url.Url(GoogleAuthEndpoint, AuthorizeParams(clientId, redirectUri)))
  }

  lemma AuthorizeRoundTrip(clientId: Value, redirectUri: Value)
    ensures var u := Url.Url(GoogleAuthEndpoint, AuthorizeParams(clientId, redirectUri));
      Url.Parse(Url.Serialize(u)) == Some(u)
  {
    EndpointWellFormed();
    Url.UrlRoundTrip(Url.Url(GoogleAuthEndpoint, AuthorizeParams(clientId, redirectUri)));
  }

  /** The route as written: `clientId` and `redirectUri` are destructured
      from a module that does not export them, so both are `undefined`. */
  function AuthorizeUrlAsWritten(): string {
    AuthorizeUrl(Undefined, Undefined)
  }

  /** As written, Google is sent the literal text `undefined` as the client
      id, and a redirect URI that is not a URL at all. */
  lemma AsWrittenSendsUndefined()
    ensures Url.Parse(AuthorizeUrlAsWritten()) ==
      Some(Url.Url(GoogleAuthEndpoint, [("client_id", "undefined"), ("redirect_uri", "undefined"),
                                        ("response_type", "code"), ("scope", "profile email")]))
    ensures Url.Parse("undefined").None?
  {
    assert IndexOf("undefined", ':').None?;
  }

  /** The evidently intended `/google`: the settings of the app's own
      Google client, as `createGoogleClientByApp` builds it, with the
      app's id appended to its redirect URI. */
  function AuthorizeUrlForApp(apps: seq<Apps.App>, appId: Value): (r: Result<string>)
    ensures Apps.FindApp(apps, appId).None? ==> r == Err("createGoogleClientByApp: invalid appId: " + ToStr(appId))
    ensures r.Ok? ==> Apps.FindApp(apps, appId).Some?
    ensures r.Ok? ==>
      && Url.Parse(r.value).Some?
      && Url.Parse(r.value).value.location == GoogleAuthEndpoint
      && |Url.Parse(r.value).value.query| == 4
      && Url.Parse(r.value).value.query[0] == ("client_id", ToStr(Get(Apps.FindApp(apps, appId).value.fields, "GOOGLE_CLIENT_ID")))
    ensures r.Ok? && Url.Parse(r.value).Some? && |Url.Parse(r.value).value.query| == 4 ==>
      var given := Url.Parse(ToStr(Get(Apps.FindApp(apps, appId).value.fields, "GOOGLE_REDIRECT_URI")));
      var redirect := Url.Parse(Url.Parse(r.value).value.query[1].1);
      && given.Some?
      && redirect.Some?
      && redirect.value.location == given.value.location
      && |redirect.value.query| == |given.value.query| + 1
      && redirect.value.query[|given.value.query|] == ("appId", ToStr(appId))
    ensures r.Err? && Apps.FindApp(apps, appId).Some? ==> r == Err("Invalid URL")
    ensures Apps.FindApp(apps, appId).Some? ==>
      (r.Ok? <==> Url.Parse(ToStr(Get(Apps.FindApp(apps, appId).value.fields, "GOOGLE_REDIRECT_URI"))).Some?)
  {
    match Apps.FindApp(apps, appId)
    case None => Err("createGoogleClientByApp: invalid appId: " + ToStr(appId))
    case Some(app) =>
      var text := ToStr(Get(app.fields, "GOOGLE_REDIRECT_URI"));
      match Url.Parse(text)
      case None => Err("Invalid URL")
      case Some(u) =>
        Url.ParseWellFormed(text);
        var computed := Url.AppendParam(u, "appId", ToStr(appId));
        AuthorizeCarriesRedirect(Get(app.fields, "GOOGLE_CLIENT_ID"), computed);
        Ok(AuthorizeUrl(Get(app.fields, "GOOGLE_CLIENT_ID"), Str(Url.Serialize(computed))))
  }

  /** A redirect URI sent through the authorize URL reads back unchanged. */
  lemma AuthorizeCarriesRedirect(clientId: Value, redirect: Url.Url)
    requires Url.WellFormedLocation(redirect.location)
    ensures var parsed := Url.Parse(AuthorizeUrl(clientId, Str(Url.Serialize(redirect))));
      && parsed.Some?
      && parsed.value.location == GoogleAuthEndpoint
      && |parsed.value.query| == 4
      && parsed.value.query[0] == ("client_id", ToStr(clientId))
      && Url.Parse(parsed.value.query[1].1) == Some(redirect)
  {
    Url.UrlRoundTrip(redirect);
  }

  // ---------------------------------------------------------------------
  // Calls to the account service

  /** The request and the answer of one `callExternalApi` call. */
  datatype Exchange = Exchange(request: ApiRequest.Request, data: ApiRequest.Body)

  /** `callExternalApi(verb, relativePath, payload)` of this file, where the
      HTTP exchange ends in `outcome`: the base URL and key come from the
      environment, and a failure is re-raised. */
  function CallExternalApi(env: Env, verb: string, relativePath: string, payload: Option<Object>,
                           outcome: Result<ApiRequest.Body>): (r: Result<Exchange>)
    ensures r.Err? <==> outcome.Err?
    ensures r.Err? ==> r.message == outcome.message
    ensures r.Ok? ==> r.value.data == outcome.value
    ensures r.Ok? ==> r.value.request.url == ToStr(EnvGet(env, "EXTERNAL_APP_API_URL")) + relativePath
    ensures r.Ok? ==> r.value.request.headers == [("Authorization", "Bearer " + ToStr(EnvGet(env, "EXTERNAL_APP_API_KEY"))), ("Accept", "application/json")]
    ensures r.Ok? ==> (r.value.request.params.Some? <==> Upper(verb) == "GET" && payload.Some?)
    ensures r.Ok? ==> (r.value.request.data.Some? <==> Upper(verb) == "POST" && payload.Some?)
    ensures r.Ok? && r.value.request.params.Some? ==> r.value.request.params == payload
    ensures r.Ok? && r.value.request.data.Some? ==> r.value.request.data == payload
  {
    match outcome
    case Err(m) => Err(m)
    case Ok(body) =>
      var request := ApiRequest.Build(EnvGet(env, "EXTERNAL_APP_API_URL"), EnvGet(env, "EXTERNAL_APP_API_KEY"),
                                      verb, relativePath, payload);
      Ok(Exchange(request, body))
  }

  /** The two `callExternalApi` helpers send the same request when the app's
      settings agree with the environment, and differ only on failure: the
      app-scoped one answers `null`, this one re-raises. */
  lemma CallHelpersAgree(apps: seq<Apps.App>, appId: Value, env: Env, verb: string, relativePath: string,
                         payload: Option<Object>, outcome: Result<ApiRequest.Body>)
    requires Apps.UseAppDetails(apps, appId, Str("useAppAPIs")).Ok?
    requires var app := Apps.UseAppDetails(apps, appId, Str("useAppAPIs")).value;
      && Get(app.fields, "EXTERNAL_APP_API_URL") == EnvGet(env, "EXTERNAL_APP_API_URL")
      && Get(app.fields, "EXTERNAL_APP_API_KEY") == EnvGet(env, "EXTERNAL_APP_API_KEY")
    ensures var scoped := Apps.CallExternalApi(apps, appId, verb, relativePath, payload, outcome);
      var routed := CallExternalApi(env, verb, relativePath, payload, outcome);
      && scoped.Ok?
      && (outcome.Ok? ==> routed.Ok? && routed.value.request == scoped.value.request && routed.value.data == scoped.value.data)
      && (outcome.Err? ==> routed.Err? && scoped.value.data == ApiRequest.NullBody)
  {
  }

  // ---------------------------------------------------------------------
  // Is the Google email linked?

  const ExternalIdPrefix := "/external-id/"

  /** `/external-id/${encodeURIComponent(googleEmail)}`. */
  function ExternalIdPath(googleEmail: Value): (p: string)
    ensures StartsWith(p, ExternalIdPrefix)
    ensures '/' !in p[|ExternalIdPrefix|..]
    ensures Url.DecodeComponent(p[|ExternalIdPrefix|..]) == Some(ToStr(googleEmail))
  {
    var segment := Url.EncodeComponent(ToStr(googleEmail));
    assert !Url.ComponentSafe('/');
    Url.ComponentRoundTrip(ToStr(googleEmail));
    assert (ExternalIdPrefix + segment)[|ExternalIdPrefix|..] == segment;
    ExternalIdPrefix + segment
  }

  /** The lookup `getExternalApiExternalIdByGoogleEmail` sends: a GET with
      no payload. */
  function LookupRequest(env: Env, googleEmail: Value): (r: ApiRequest.Request)
    ensures r.url == ToStr(EnvGet(env, "EXTERNAL_APP_API_URL")) + ExternalIdPath(googleEmail)
    ensures r.params.None? && r.data.None?
  {
    ApiRequest.Build(EnvGet(env, "EXTERNAL_APP_API_URL"), EnvGet(env, "EXTERNAL_APP_API_KEY"),
                     "GET", ExternalIdPath(googleEmail), None)
  }

  /** `payload.linked` after `injectLinkedPropertyToGoogleDetails`, given
      the lookup's answer: left unset (`None`) when the lookup raised. */
  function InjectLinked(lookup: Result<ApiRequest.Body>): (linked: Option<bool>)
    ensures linked.None? <==> lookup.Err?
    ensures linked == Some(true) <==>
      lookup.Ok? && lookup.value.ObjectBody? && Truthy(Get(lookup.value.fields, "identifier"))
    ensures lookup == Ok(ApiRequest.NullBody) ==> linked == Some(false)
  {
    match lookup
    case Err(_) => None
    case Ok(body) =>
      match ApiRequest.Field(body, "identifier")
      case None => Some(false)
      case Some(identifier) => Some(Truthy(identifier) && identifier != Null)
  }

  /** An `identifier: null` answer, an empty identifier and an answer with
      no identifier all mean "not linked". */
  lemma NullIdentifierNotLinked(fields: Object)
    ensures InjectLinked(Ok(ApiRequest.ObjectBody(fields["identifier" := Null]))) == Some(false)
    ensures InjectLinked(Ok(ApiRequest.ObjectBody(fields["identifier" := Str("")]))) == Some(false)
    ensures "identifier" !in fields ==> InjectLinked(Ok(ApiRequest.ObjectBody(fields))) == Some(false)
  {
  }

  // ---------------------------------------------------------------------
  // The JWT lookup

  /** How `getExternalApiJWTByGoogleEmail` ends: a token, `null`, or an
      error it raises. */
  datatype Jwt = Token(token: string) | NoUser | Raised(message: string)

  /** The request for the JWT: a GET carrying `{ googleEmail }` as its query
      parameters. */
  function JwtRequest(env: Env, googleEmail: Value): (r: ApiRequest.Request)
    ensures r.url == ToStr(EnvGet(env, "EXTERNAL_APP_API_URL")) + "/googleauth/get_jwt"
    ensures r.params == Some(map["googleEmail" := googleEmail]) && r.data.None?
  {
    assert Upper("GET") == "GET";
    ApiRequest.Build(EnvGet(env, "EXTERNAL_APP_API_URL"), EnvGet(env, "EXTERNAL_APP_API_KEY"),
                     "GET", "/googleauth/get_jwt", Some(map["googleEmail" := googleEmail]))
  }

  /** `getExternalApiJWTByGoogleEmail(email)` on the account service's
      answer `response`. */
  function FetchJwt(response: Result<ApiRequest.Body>): (r: Jwt)
    ensures response.Err? ==> r == Raised(response.message)
    ensures response == Ok(ApiRequest.NullBody) ==> r == Raised("Cannot read properties of null (reading 'token')")
    ensures r.Token? <==> response.Ok? && response.value.ObjectBody? && Truthy(Get(response.value.fields, "token"))
    ensures r.Token? ==> Get(response.value.fields, "token") == Str(r.token) && r.token != ""
    ensures r.NoUser? <==>
      && response.Ok? && response.value.ObjectBody?
      && !Truthy(Get(response.value.fields, "token"))
      && Get(response.value.fields, "error") == Str("USER_NOT_FOUND")
    ensures r.Raised? && response.Ok? && response.value.ObjectBody? ==>
      r.message == "Failed to fetch JWT: " + ToStr(Or(Get(response.value.fields, "error"), Str("Unknown error")))
  {
    match response
    case Err(m) => Raised(m)
    case Ok(body) =>
      match body
      case NullBody => Raised("Cannot read properties of null (reading 'token')")
      case ObjectBody(o) =>
        if Truthy(Get(o, "token")) then Token(Get(o, "token").s)
        else if Get(o, "error") == Str("USER_NOT_FOUND") then NoUser
        else Raised("Failed to fetch JWT: " + ToStr(Or(Get(o, "error"), Str("Unknown error"))))
  }

  /** Every answer lands in exactly one of the three outcomes, and an error
      other than `USER_NOT_FOUND` is carried into the raised message. */
  lemma JwtErrorNamed(o: Object, error: string)
    requires !Truthy(Get(o, "token")) && Get(o, "error") == Str(error)
    ensures error == "USER_NOT_FOUND" ==> FetchJwt(Ok(ApiRequest.ObjectBody(o))) == NoUser
    ensures error != "USER_NOT_FOUND" && error != "" ==>
      FetchJwt(Ok(ApiRequest.ObjectBody(o))) == Raised("Failed to fetch JWT: " + error)
    ensures error == "" ==> FetchJwt(Ok(ApiRequest.ObjectBody(o))) == Raised("Failed to fetch JWT: Unknown error")
  {
  }

  /** The account service's answer that stands for each outcome: a body
      with the token, the `USER_NOT_FOUND` error body, or a failed call. */
  function JwtAnswer(j: Jwt): Result<ApiRequest.Body> {
    match j
    case Token(t) => Ok(ApiRequest.ObjectBody(map["token" := Str(t)]))
    case NoUser => Ok(ApiRequest.ObjectBody(map["error" := Str("USER_NOT_FOUND")]))
    case Raised(m) => Err(m)
  }

  /** Every outcome the lookup can end in is read back from the answer that
      stands for it; the only outcome it cannot end in is an empty token. */
  lemma FetchJwtReadsAnswer(j: Jwt)
    ensures j.Token? && j.token == "" ==> FetchJwt(JwtAnswer(j)) != j
    ensures !(j.Token? && j.token == "") ==> FetchJwt(JwtAnswer(j)) == j
  {
    match j
    case Token(t) =>
      assert Get(map["token" := Str(t)], "token") == Str(t);
    case NoUser =>
      assert Get(map["error" := Str("USER_NOT_FOUND")], "token") == Undefined;
      assert Get(map["error" := Str("USER_NOT_FOUND")], "error") == Str("USER_NOT_FOUND");
    case Raised(_) =>
  }

  /** `EXTERNAL_APP_URL + "/?_token=" + token` for a lookup that did not
      raise; the `null` of an unknown user is written out as text. */
  function TokenRedirect(env: Env, jwt: Jwt): (r: Option<string>)
    ensures r.None? <==> jwt.Raised?
    ensures r.Some? ==> StartsWith(r.value, ToStr(EnvGet(env, "EXTERNAL_APP_URL")) + "/?_token=")
    ensures jwt.Token? ==> r.value[|ToStr(EnvGet(env, "EXTERNAL_APP_URL")) + "/?_token="|..] == jwt.token
    ensures jwt.NoUser? ==> r.value[|ToStr(EnvGet(env, "EXTERNAL_APP_URL")) + "/?_token="|..] == "null"
  {
    var prefix := ToStr(EnvGet(env, "EXTERNAL_APP_URL")) + "/?_token=";
    match jwt
    case Token(t) =>
      assert (prefix + t)[..|prefix|] == prefix && (prefix + t)[|prefix|..] == t;
      Some(prefix + t)
    case NoUser =>
      assert (prefix + "null")[..|prefix|] == prefix && (prefix + "null")[|prefix|..] == "null";
      Some(prefix + "null")
    case Raised(_) => None
  }

  // ---------------------------------------------------------------------
  // Link fields

  /** `(EXTERNAL_APP_LINK_FIELDS || "email,password").split(",")`: the
      fields, rendered back with `join(",")`, are the setting itself. */
  function LinkFields(env: Env): (r: seq<string>)
    ensures |r| >= 1
    ensures forall k :: 0 <= k < |r| ==> ',' !in r[k]
    ensures Join(r, ',') == ToStr(Or(EnvGet(env, "EXTERNAL_APP_LINK_FIELDS"), Str("email,password")))
  {
    var raw := ToStr(Or(EnvGet(env, "EXTERNAL_APP_LINK_FIELDS"), Str("email,password")));
    JoinSplit(raw, ',');
    Split(raw, ',')
  }

  /** With the variable unset or empty the fields are email and password. */
  lemma LinkFieldsDefault(env: Env)
    requires "EXTERNAL_APP_LINK_FIELDS" !in env || env["EXTERNAL_APP_LINK_FIELDS"] == ""
    ensures LinkFields(env) == ["email", "password"]
  {
    assert ToStr(Or(EnvGet(env, "EXTERNAL_APP_LINK_FIELDS"), Str("email,password"))) == "email,password";
    DefaultFieldsSplit();
  }

  lemma DefaultFieldsSplit()
    ensures Split("email,password", ',') == ["email", "password"]
  {
    assert Join(["email", "password"], ',') == "email,password";
    SplitJoin(["email", "password"], ',');
  }

  // ---------------------------------------------------------------------
  // The callback

  /** What the callback renders: the `google-login` view with the payload's
      email, `linked` (absent when the lookup raised) and `redirectUrl`
      (absent unless set), or the error view. */
  datatype View =
    | GoogleLogin(email: Value, linked: Option<bool>, redirectUrl: Option<string>, linkFields: string)
    | ErrorPage(error: string)

  /** `/google/callback` as written, where the token exchange answered
      `exchange`: `client` is `undefined`, and the callee
      `client.verifyIdToken` is read before its argument `data.id_token`, so
      every answer, `null` included, ends in the same `TypeError`. */
  function CallbackAsWritten(exchange: Result<ApiRequest.Body>): (v: View)
    ensures exchange.Err? ==> v == ErrorPage(exchange.message)
    ensures exchange.Ok? ==> v == ErrorPage("Cannot read properties of undefined (reading 'verifyIdToken')")
  {
    match exchange
    case Err(m) => ErrorPage(m)
    case Ok(_) => ErrorPage("Cannot read properties of undefined (reading 'verifyIdToken')")
  }

  /** `/google/callback` with the Google client the app's settings make:
      `exchange` is the token endpoint's answer, `verified` the email of a
      valid ID token (or the check's error), `lookup` and `jwt` the account
      service's answers. */
  function Callback(env: Env, exchange: Result<ApiRequest.Body>, verified: Result<Value>,
                    lookup: Result<ApiRequest.Body>, jwt: Result<ApiRequest.Body>): (v: View)
    ensures exchange.Err? ==> v == ErrorPage(exchange.message)
    ensures exchange == Ok(ApiRequest.NullBody) ==> v == ErrorPage("Cannot read properties of null (reading 'id_token')")
    ensures exchange.Ok? && exchange.value.ObjectBody? && verified.Err? ==> v == ErrorPage(verified.message)
    ensures v.GoogleLogin? <==> exchange.Ok? && exchange.value.ObjectBody? && verified.Ok?
    ensures v.GoogleLogin? ==>
      && v.email == verified.value
      && v.linked == InjectLinked(lookup)
      && v.linkFields == ToStr(Or(EnvGet(env, "EXTERNAL_APP_LINK_FIELDS"), Str("email,password")))
    ensures v.GoogleLogin? ==> (v.redirectUrl.Some? <==> InjectLinked(lookup) == Some(true) && !FetchJwt(jwt).Raised?)
    ensures v.GoogleLogin? && v.redirectUrl.Some? ==> v.redirectUrl == TokenRedirect(env, FetchJwt(jwt))
  {
    match exchange
    case Err(m) => ErrorPage(m)
    case Ok(data) =>
      if data.NullBody? then ErrorPage("Cannot read properties of null (reading 'id_token')")
      else match verified
        case Err(m) => ErrorPage(m)
        case Ok(email) =>
          var linked := InjectLinked(lookup);
          var redirectUrl := if linked == Some(true) then TokenRedirect(env, FetchJwt(jwt)) else None;
          GoogleLogin(email, linked, redirectUrl, Join(LinkFields(env), ','))
  }

  /** As written, no code ever signs anyone in; with the app's client the
      same token exchange and a valid ID token render the sign-in view. */
  lemma CallbackAsWrittenNeverSignsIn(env: Env, exchange: Result<ApiRequest.Body>, email: Value,
                                      lookup: Result<ApiRequest.Body>, jwt: Result<ApiRequest.Body>)
    ensures CallbackAsWritten(exchange).ErrorPage?
    ensures exchange.Ok? && exchange.value.ObjectBody? ==> Callback(env, exchange, Ok(email), lookup, jwt).GoogleLogin?
  {
  }

  /** A failed JWT lookup does not abort the callback: the view is rendered
      without a redirect. */
  lemma JwtFailureStillRenders(env: Env, fields: Object, email: Value, lookup: Result<ApiRequest.Body>, message: string)
    ensures var v := Callback(env, Ok(ApiRequest.ObjectBody(fields)), Ok(email), lookup, Err(message));
      v.GoogleLogin? && v.redirectUrl.None? && v.linked == InjectLinked(lookup)
  {
  }

  // ---------------------------------------------------------------------
  // Linking an account

  /** The request `/link-google-account` sends: the form body is POSTed. */
  function LinkRequest(env: Env, body: Object): (r: ApiRequest.Request)
    ensures r.url == ToStr(EnvGet(env, "EXTERNAL_APP_API_URL")) + "/googleauth/link"
    ensures r.data == Some(body) && r.params.None?
  {
    assert Upper("POST") == "POST";
    ApiRequest.Build(EnvGet(env, "EXTERNAL_APP_API_URL"), EnvGet(env, "EXTERNAL_APP_API_KEY"),
                     "POST", "/googleauth/link", Some(body))
  }

  /** The `redirectUrl` `/link-google-account` answers with, given the
      account service's answer `outcome`. A failed call is not caught, so
      no answer is sent (`Err` with the call's error); a `null` answer
      cannot be destructured. Any object yields a redirect, `undefined`
      token included. */
  function LinkGoogleAccount(env: Env, outcome: Result<ApiRequest.Body>): (r: Result<string>)
    ensures outcome.Err? ==> r == Err(outcome.message)
    ensures outcome == Ok(ApiRequest.NullBody) ==> r == Err("Cannot destructure property 'token' of 'r' as it is null.")
    ensures r.Ok? <==> outcome.Ok? && outcome.value.ObjectBody?
    ensures r.Ok? ==> StartsWith(r.value, ToStr(EnvGet(env, "EXTERNAL_APP_URL")) + "/?_token=")
    ensures r.Ok? ==> r.value[|ToStr(EnvGet(env, "EXTERNAL_APP_URL")) + "/?_token="|..] == ToStr(Get(outcome.value.fields, "token"))
  {
    var prefix := ToStr(EnvGet(env, "EXTERNAL_APP_URL")) + "/?_token=";
    match outcome
    case Err(m) => Err(m)
    case Ok(body) =>
      match body
      case NullBody => Err("Cannot destructure property 'token' of 'r' as it is null.")
      case ObjectBody(o) =>
        var t := ToStr(Get(o, "token"));
        assert (prefix + t)[..|prefix|] == prefix && (prefix + t)[|prefix|..] == t;
        Ok(prefix + t)
  }

  /** Unlike the callback, the link endpoint does not check the token: an
      answer without one still redirects, with `undefined` in its place. */
  lemma LinkWithoutToken(env: Env, o: Object)
    requires "token" !in o
    ensures LinkGoogleAccount(env, Ok(ApiRequest.ObjectBody(o))) == Ok(ToStr(EnvGet(env, "EXTERNAL_APP_URL")) + "/?_token=undefined")
  {
    assert Get(o, "token") == Undefined;
    assert ToStr(EnvGet(env, "EXTERNAL_APP_URL")) + "/?_token=" + "undefined"
        == ToStr(EnvGet(env, "EXTERNAL_APP_URL")) + "/?_token=undefined";
  }
}
