/** The GitLab sign-in client of `src/config/gitlab.js`: the client built for
    a provider and an app, the token-exchange form it posts, and the
    mapping of a GitLab user record onto the claim set a Google ID token
    carries. The two HTTP exchanges are inputs. */
module GitLab {
  import opened Wrappers
  import opened Js
  import opened Text
  import opened Decimal
  import Apps
  import Url
  import ApiRequest

  datatype Client = Client(clientId: Value, clientSecret: Value, redirectUri: Url.Url)

  /** The `TypeError` of reading `client_id` from a provider that is not
      registered. */
  const NoProvider := "Cannot read properties of undefined (reading 'client_id')"

  /** The `TypeError` of `new URL` on text that is not an absolute URL. */
  const InvalidUrl := "Invalid URL"

  /** `createGitLabClientByApp(providerId, appId)`: an unknown app is
      reported first; an unknown provider or an unparsable `redirect_url`
      then fails with the runtime's `TypeError`. */
  function CreateGitLabClientByApp(apps: seq<Apps.App>, providerId: Value, appId: Value): (r: Result<Client>)
    ensures Apps.FindApp(apps, appId).None? ==> r == Err("createGitLabClientByApp: invalid appId: " + ToStr(appId))
    ensures Apps.FindApp(apps, appId).Some? && Apps.FindApp(apps, providerId).None? ==> r == Err(NoProvider)
    ensures r.Ok? ==> Apps.FindApp(apps, appId).Some? && Apps.FindApp(apps, providerId).Some?
    ensures r.Ok? ==>
      var provider := Apps.FindApp(apps, providerId).value;
      var given := Url.Parse(ToStr(Get(provider.fields, "redirect_url")));
      && given.Some?
      && r.value.clientId == Get(provider.fields, "client_id")
      && r.value.clientSecret == Get(provider.fields, "client_secret")
      && r.value.redirectUri.location == given.value.location
      && |r.value.redirectUri.query| == |given.value.query| + 1
      && r.value.redirectUri.query[..|given.value.query|] == given.value.query
      && r.value.redirectUri.query[|given.value.query|] == ("appId", ToStr(appId))
      && Url.WellFormedLocation(r.value.redirectUri.location)
    ensures r.Err? && Apps.FindApp(apps, appId).Some? && Apps.FindApp(apps, providerId).Some? ==> r == Err(InvalidUrl)
    ensures Apps.FindApp(apps, appId).Some? && Apps.FindApp(apps, providerId).Some? ==>
      (r.Ok? <==> Url.Parse(ToStr(Get(Apps.FindApp(apps, providerId).value.fields, "redirect_url"))).Some?)
  {
    match Apps.FindApp(apps, appId)
    case None => Err("createGitLabClientByApp: invalid appId: " + ToStr(appId))
    case Some(_) =>
      match Apps.FindApp(apps, providerId)
      case None => Err(NoProvider)
      case Some(provider) =>
        var text := ToStr(Get(provider.fields, "redirect_url"));
        match Url.Parse(text)
        case None => Err(InvalidUrl)
        case Some(u) =>
          Url.ParseWellFormed(text);
          Ok(Client(Get(provider.fields, "client_id"), Get(provider.fields, "client_secret"),
                    Url.AppendParam(u, "appId", ToStr(appId))))
  }

  /** The pairs of `new URLSearchParams({ client_id, client_secret, code,
      grant_type, redirect_uri })`; each value is converted to a string. */
  function TokenParams(c: Client, code: Value): seq<Url.Pair> {
    [("client_id", ToStr(c.clientId)),
     ("client_secret", ToStr(c.clientSecret)),
     ("code", ToStr(code)),
     ("grant_type", "authorization_code"),
     ("redirect_uri", Url.Serialize(c.redirectUri))]
  }

  /** The `application/x-www-form-urlencoded` body posted to the token
      endpoint: it reads back as exactly the five parameters, and the
      `redirect_uri` among them reads back as the client's redirect URI. */
  function TokenRequestBody(c: Client, code: Value): (body: string)
    requires Url.WellFormedLocation(c.redirectUri.location)
    ensures Url.FormParse(body) == Some(TokenParams(c, code))
    ensures Url.Parse(TokenParams(c, code)[4].1) == Some(c.redirectUri)
  {
    Url.FormSerializeRoundTrip(TokenParams(c, code));
    Url.UrlRoundTrip(c.redirectUri);
    Url.FormSerialize(TokenParams(c, code))
  }

  /** The redirect URI sent in the token exchange names the app it was
      built for, in its last query parameter. */
  lemma TokenRedirectNamesApp(apps: seq<Apps.App>, providerId: Value, appId: Value, code: Value)
    requires CreateGitLabClientByApp(apps, providerId, appId).Ok?
    ensures var c := CreateGitLabClientByApp(apps, providerId, appId).value;
      var sent := Url.Parse(Url.FormParse(TokenRequestBody(c, code)).value[4].1);
      && sent.Some?
      && |sent.value.query| >= 1
      && sent.value.query[|sent.value.query| - 1] == ("appId", ToStr(appId))
  {
  }

  // ---------------------------------------------------------------------
  // The user record and the claims made from it

  /** The fields of GitLab's `/api/v4/user` answer that the mapping reads. */
  datatype GitLabUser = GitLabUser(id: int, name: string, avatarUrl: Value, email: Value, confirmedAt: Value)

  datatype Claims = Claims(
    sub: string,
    name: string,
    givenName: string,
    familyName: string,
    picture: Value,
    email: Value,
    emailVerified: bool)

  /** `name.split(' ')[0]`. */
  function GivenName(name: string): (g: string)
    ensures ' ' !in g
  {
    Split(name, ' ')[0]
  }

  /** `name.split(' ').slice(1).join(' ')`. */
  function FamilyName(name: string): string {
    Join(Split(name, ' ')[1..], ' ')
  }

  /** The two halves put back together give the name: split at the first
      space when there is one, and otherwise all given name. */
  lemma NameRoundTrip(name: string)
    ensures ' ' in name ==> GivenName(name) + " " + FamilyName(name) == name
    ensures ' ' !in name ==> GivenName(name) == name && FamilyName(name) == ""
  {
    var parts := Split(name, ' ');
    JoinSplit(name, ' ');
    if ' ' in name {
      var i := IndexOf(name, ' ').value;
      assert |parts| >= 2;
    } else {
      SplitWithout(name, ' ');
    }
  }

  /** The Google-shaped payload made from a GitLab user. */
  function ToClaims(u: GitLabUser): (c: Claims)
    ensures ParseInt(c.sub) == Some(u.id)
    ensures c.name == u.name && c.picture == u.avatarUrl && c.email == u.email
    ensures ' ' !in c.givenName
    ensures ' ' in u.name ==> c.givenName + " " + c.familyName == u.name
    ensures ' ' !in u.name ==> c.givenName == u.name && c.familyName == ""
    ensures c.emailVerified <==> u.confirmedAt != Null
  {
    IntToStringRoundTrip(u.id);
    NameRoundTrip(u.name);
    Claims(IntToString(u.id), u.name, GivenName(u.name), FamilyName(u.name), u.avatarUrl, u.email, u.confirmedAt != Null)
  }

  /** An account that never confirmed its email has `confirmed_at: null`;
      an answer without the field still counts as verified. */
  lemma MissingConfirmationCountsAsVerified(id: int, name: string, avatarUrl: Value, email: Value)
    ensures ToClaims(GitLabUser(id, name, avatarUrl, email, Undefined)).emailVerified
    ensures !ToClaims(GitLabUser(id, name, avatarUrl, email, Null)).emailVerified
  {
  }

  // ---------------------------------------------------------------------
  // The sign-in flow

  /** `getGitLabDetailsGivenCode(code)`, where the token exchange answered
      `tokenResponse` and the user request answered `userResponse` (`None`
      for a `null` body): a failed exchange is re-raised with its own
      error, and a `null` body throws on its first property read. */
  function GetGitLabDetailsGivenCode(tokenResponse: Result<ApiRequest.Body>, userResponse: Result<Option<GitLabUser>>): (r: Result<Claims>)
    ensures tokenResponse.Err? ==> r == Err(tokenResponse.message)
    ensures tokenResponse == Ok(ApiRequest.NullBody) ==> r == Err("Cannot read properties of null (reading 'access_token')")
    ensures tokenResponse.Ok? && tokenResponse.value.ObjectBody? && userResponse.Err? ==> r == Err(userResponse.message)
    ensures tokenResponse.Ok? && tokenResponse.value.ObjectBody? && userResponse == Ok(None) ==>
      r == Err("Cannot read properties of null (reading 'id')")
    ensures r.Ok? <==> tokenResponse.Ok? && tokenResponse.value.ObjectBody? && userResponse.Ok? && userResponse.value.Some?
    ensures r.Ok? ==> r.value == ToClaims(userResponse.value.value)
  {
    match tokenResponse
    case Err(m) => Err(m)
    case Ok(body) =>
      if body.NullBody? then Err("Cannot read properties of null (reading 'access_token')")
      else match userResponse
        case Err(m) => Err(m)
        case Ok(None) => Err("Cannot read properties of null (reading 'id')")
        case Ok(Some(u)) => Ok(ToClaims(u))
  }
}
