/** How the broker and an account service fit together: a service that
    mounts `apiAuthMiddleware` admits the broker's requests exactly when
    both are configured with the same key, the email the broker looks up is
    the one the demo service reads from the path, and an email the demo
    service has linked is reported back as linked. */
module Linking {
  import opened Wrappers
  import opened Js
  import opened Text
  import Url
  import ApiRequest
  import ApiAuth
  import AuthRoutes
  import ExternalApi

  /** The JSON body `/external-id/:googleEmail` answers with. */
  function ExternalIdAnswer(db: ExternalApi.Db, googleEmail: string): ApiRequest.Body {
    ApiRequest.ObjectBody(map["identifier" := ExternalApi.ExternalId(db, googleEmail)])
  }

  /** A service that mounts `apiAuthMiddleware` admits a broker request,
      sent with the environment's key, exactly when the service is
      configured with the same key, provided that key is non-empty and does
      not end in a tab. An empty key or one ending in a tab is trimmed off
      the header on the way, and the service configured with it refuses
      the broker. The demo service does not mount the middleware. */
  lemma BrokerRequestAdmitted(env: AuthRoutes.Env, verb: string, relativePath: string, payload: Option<Object>,
                              validKey: Value)
    requires "EXTERNAL_APP_API_KEY" in env && ' ' !in env["EXTERNAL_APP_API_KEY"]
    ensures var r := ApiRequest.Build(EnvGet(env, "EXTERNAL_APP_API_URL"), EnvGet(env, "EXTERNAL_APP_API_KEY"),
                                      verb, relativePath, payload);
      var k := env["EXTERNAL_APP_API_KEY"];
      var d := ApiAuth.Decide(Str(ApiAuth.Received(r.headers[0].1)), Undefined, validKey);
      && (k != "" && k[|k| - 1] != '\t' ==> (d.Next? <==> validKey == Str(k)))
      && ((k == "" || k[|k| - 1] == '\t') && validKey == Str(k) ==> d == ApiAuth.Forbidden)
  {
    var k := env["EXTERNAL_APP_API_KEY"];
    var r := ApiRequest.Build(EnvGet(env, "EXTERNAL_APP_API_URL"), EnvGet(env, "EXTERNAL_APP_API_KEY"),
                              verb, relativePath, payload);
    assert r.headers[0].1 == "Bearer " + k;
    if k != "" && k[|k| - 1] != '\t' {
      HeaderKept(k);
      SentKeyAdmitted(k, validKey);
    } else if validKey == Str(k) {
      TrimmedKeyRefused(k);
    }
  }

  /** A header ending in a non-empty key without a trailing tab arrives
      unchanged. */
  lemma HeaderKept(k: string)
    requires ' ' !in k && k != "" && k[|k| - 1] != '\t'
    ensures ApiAuth.Received("Bearer " + k) == "Bearer " + k
  {
    var h := "Bearer " + k;
    assert !ApiAuth.IsOws(h[0]);
    assert ApiAuth.TrimStart(h) == h;
    assert h[|h| - 1] == k[|k| - 1];
  }

  /** An empty key, or one ending in a tab, loses its tail on the way, and
      the service configured with that key refuses what arrives. */
  lemma TrimmedKeyRefused(k: string)
    requires ' ' !in k && (k == "" || k[|k| - 1] == '\t')
    ensures ApiAuth.Decide(Str(ApiAuth.Received("Bearer " + k)), Undefined, Str(k)) == ApiAuth.Forbidden
  {
    var h := "Bearer " + k;
    assert !ApiAuth.IsOws(h[0]);
    assert ApiAuth.TrimStart(h) == h;
    assert ApiAuth.IsOws(h[|h| - 1]);
    assert |ApiAuth.Received(h)| < |h|;
  }

  /** The header `Bearer <k>`, received unchanged, passes exactly when the
      configured key is `k`. */
  lemma SentKeyAdmitted(k: string, validKey: Value)
    requires ' ' !in k
    ensures ApiAuth.Decide(Str("Bearer " + k), Undefined, validKey).Next? <==> validKey == Str(k)
  {
    var h := "Bearer " + k;
    if ApiAuth.BearerAdmits(h, validKey) {
      var v := validKey.s;
      NoSecondSegment(k, v);
      assert k == h[7..] == ("Bearer " + v)[7..] == v;
    }
  }

  /** A key without a space is never followed by another segment. */
  lemma NoSecondSegment(k: string, v: string)
    requires ' ' !in k
    ensures !StartsWith("Bearer " + k, "Bearer " + v + " ")
  {
    var h := "Bearer " + k;
    var p := "Bearer " + v + " ";
    if |p| <= |h| {
      assert p[7 + |v|] == ' ';
      assert h[7 + |v|] == k[|v|];
    }
  }

  /** The path segment the broker sends decodes, on the service's side, to
      the email it asked about; once the service has linked that email,
      its answer makes the broker mark the user as linked. */
  lemma LinkedEmailReportedLinked(db: ExternalApi.Db, googleEmail: Value, userEmail: Value, googleMetadata: Value)
    requires ExternalApi.Valid(db)
    requires ExternalApi.LinkGoogleEmail(db, googleEmail, userEmail, googleMetadata).1 in {ExternalApi.Updated, ExternalApi.Created}
    ensures var path := AuthRoutes.ExternalIdPath(googleEmail);
      var db1 := ExternalApi.LinkGoogleEmail(db, googleEmail, userEmail, googleMetadata).0;
      && Url.DecodeComponent(path[|AuthRoutes.ExternalIdPrefix|..]) == Some(googleEmail.s)
      && AuthRoutes.InjectLinked(Ok(ExternalIdAnswer(db1, googleEmail.s))) == Some(true)
  {
    var db1 := ExternalApi.LinkGoogleEmail(db, googleEmail, userEmail, googleMetadata).0;
    ExternalApi.LinkThenExternalId(db, googleEmail, userEmail, googleMetadata);
    IdentifiedMeansLinked(db1, googleEmail.s, db.users[ExternalApi.UserByEmail(db.users, userEmail.s).value]);
  }

  lemma IdentifiedMeansLinked(db: ExternalApi.Db, googleEmail: string, u: ExternalApi.User)
    requires ExternalApi.ExternalId(db, googleEmail) == Str(ExternalApi.Identifier(u))
    ensures AuthRoutes.InjectLinked(Ok(ExternalIdAnswer(db, googleEmail))) == Some(true)
  {
    assert |ExternalApi.Identifier(u)| > 0;
    assert Get(map["identifier" := ExternalApi.ExternalId(db, googleEmail)], "identifier") == Str(ExternalApi.Identifier(u));
  }

  /** An email with no linked user is answered with `identifier: null`,
      which the broker reads as not linked. */
  lemma UnlinkedEmailReportedUnlinked(db: ExternalApi.Db, googleEmail: string)
    requires ExternalApi.JoinRow(db, googleEmail).None?
    ensures AuthRoutes.InjectLinked(Ok(ExternalIdAnswer(db, googleEmail))) == Some(false)
  {
    assert Get(map["identifier" := ExternalApi.ExternalId(db, googleEmail)], "identifier") == Null;
  }
}
