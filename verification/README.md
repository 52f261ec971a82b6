# google-login-auth-server in Dafny

A Dafny model of the decision logic of google-login-auth-server. The
system is a sign-in broker: users of registered *apps* sign in with Google
or GitLab. The broker then asks the app's *account service* whether that
provider account is already linked to one of the app's users and, when it
is, asks for a JWT to hand back. The repository also ships a demo account
service and an API-key middleware, which the demo service does not mount.

The model covers these parts of the repository:

| file | module | models |
|---|---|---|
| `apps.dfy` | `Apps` | the app registry of `src/apps.js`: the `AUTH_APPLICATIONS` list, the fallback to the config's apps, the merge with each app's config record, the `APPID__FIELD` environment overrides, `useAppDetails` and `useAppAPIs().callExternalApi` |
| `api_request.dfy` | `ApiRequest` | the request both `callExternalApi` helpers hand to the HTTP client |
| `user_link.dfy` | `UserLink` | the `UserLink` collection: the lookup by provider, app and email, and the find-or-create `linkExternalUser` |
| `user_google_link.dfy` | `UserGoogleLink` | the `UserGoogleLink` collection: the lookup by Google email, and `linkExternalUser` |
| `mongo.dfy` | `Mongo` | the `metadata` default and the `required` validation message the two collections share |
| `gitlab.dfy` | `GitLab` | `src/config/gitlab.js`: the client made for a provider and an app, the token-exchange form, and the GitLab user turned into Google-shaped claims |
| `auth_routes.dfy` | `AuthRoutes` | `src/routes/auth.js`: the authorize redirect, the callback's `linked` flag, the JWT lookup and redirect, the link fields, `/link-google-account`, and this file's `callExternalApi` |
| `api_auth.dfy` | `ApiAuth` | `external-app/api/apiAuthMiddleware.js` |
| `external_api.dfy` | `ExternalApi` | `external-app/api/index.js`: `/link-google-email` as a transition of the `users` and `users_google` tables, and the `/external-id/:googleEmail` identifier |
| `linking.dfy` | `Linking` | how the broker and an account service fit together |
| `js.dfy`, `text.dfy`, `decimal.dfy`, `utf8.dfy`, `url.dfy`, `wrappers.dfy` | `Js`, `Text`, `Decimal`, `Utf8`, `Url`, `Wrappers` | the JavaScript and web-platform behaviour the code relies on: truthiness, `String(v)`, `split` and `join`, `Number.prototype.toString`, UTF-8, `encodeURIComponent`/`decodeURIComponent`, and `URL` with `URLSearchParams` |

The model is written in the following terms:
- A JavaScript property value is `Js.Value`, which is `Undefined`, `Null` or `Str(s)`.
- An exception is the `Err(message)` of a `Result`, carrying the message the runtime or the code would give.
- Every HTTP exchange is a parameter holding its outcome: an axios call, Google's and GitLab's endpoints, the account service, and the ID-token check.
- A database collection or table is a sequence of records in insertion order.
- An operation on a collection or table is a pure function from the old store to the new store and the result.

## Model

| member | source | states |
|---|---|---|
| Apps.ParseApplications | src/apps.js:25-28 | every parsed entry has a non-empty id, and an unset or empty variable yields no entries |
| Apps.ParseFormatted | src/apps.js:25-28 | a list `id:name,id:name,...` parses to exactly its entries, in order |
| Apps.ParseEntryFormat | src/apps.js:26-27 | `id:name` gives that id and name; `id` without a colon gives an `undefined` name |
| Apps.ParseEntryDropsExtra | src/apps.js:26-27 | the name is only the text between the first and the second colon |
| Apps.ParseUnset | src/apps.js:25 | an unset or empty `AUTH_APPLICATIONS` yields no apps |
| Apps.ParseDropsTrailingComma | src/apps.js:25-28 | the empty entry after a trailing comma is filtered out |
| Apps.ParseDropsEmptyId | src/apps.js:28 | an entry `:name` has an empty id and is filtered out |
| Apps.Entries | src/apps.js:25-37 | the parsed list when it is non-empty; otherwise, if the config has apps, one entry per config key in key order, named `name || appName || key` |
| Apps.DisplayNameChoice | src/apps.js:34 | a config app's name is its non-empty `name`, else its non-empty `appName`, else its key |
| Apps.Merge | src/apps.js:39-42 | the merged app has the config record's properties, which win over `appId` and `appName`, and it always has an `appName` |
| Apps.Override | src/apps.js:45-56 | a property takes the value of `APPID__FIELD` exactly when that variable is set and non-empty; the id and the property names do not change |
| Apps.OverridePreservesIds | src/apps.js:45-56 | the override pass keeps the list's length, order and ids |
| Apps.OverrideNothingSet | src/apps.js:51-53 | with no variables set the override pass changes nothing |
| Apps.Load | src/apps.js:25-56 | the registry has one app per entry, in order, each merged with its config record and then overridden from the environment |
| Apps.LoadFromList | src/apps.js:25-56 | with `AUTH_APPLICATIONS` set to a well-formed list, the registry holds the listed ids in order, and an app without a config record holds only its listed name unless `APPID__APPNAME` overrides it |
| Apps.LoadFromConfig | src/apps.js:25-42 | without `AUTH_APPLICATIONS`, the registry lists the config's apps in key order |
| Apps.LoadConfigNames | src/apps.js:30-56 | without `AUTH_APPLICATIONS`, each config app keeps its properties, and one with no `appName` of its own is named `name || appName || key` unless `APPID__APPNAME` overrides it |
| Apps.FindApp | src/apps.js:59 | the result is the first app whose id is strictly equal to the one asked for; there is none exactly when no app has that id |
| Apps.UseAppDetails | src/apps.js:58-64 | returns the first app with that id, or fails with `"<scope>: Invalid appId: <id>"` exactly when there is none |
| Apps.UndefinedIdNeverFound | src/apps.js:58-64 | a missing `appId` never names an app |
| Apps.CallExternalApi | src/apps.js:66-116 | an unknown app throws; otherwise the request goes to the app's `EXTERNAL_APP_API_URL` with its key as bearer token, the payload travels as query parameters exactly for GET and as the body exactly for POST, and a failed exchange yields `null` |
| ApiRequest.Build | src/apps.js:84-101 | the URL is the base URL followed by the path; the headers are the bearer key and `Accept`; a payload travels as query parameters exactly for GET and as the body exactly for POST |
| ApiRequest.PayloadCarriedOnce | src/routes/auth.js:111-119 | a payload is never sent both ways, and a verb other than GET or POST sends none |
| ApiRequest.MethodCaseInsensitive | src/apps.js:94-101 | any two verbs that upper-case alike send the same URL, headers, query parameters and body |
| Mongo.OrEmpty | src/models/UserGoogleLink.js:48 | an omitted metadata object is stored as `{}` |
| UserLink.MissingPaths | src/models/UserLink.js:4-33 | no required path is reported exactly when every required string is non-empty |
| UserLink.GetUserLinkByEmail | src/models/UserLink.js:44-55 | the first document with that provider, app and email, or `null` exactly when there is none |
| UserLink.FindByKey | src/models/UserLink.js:60-65 | the first document with the full four-field key, or none exactly when no document has it |
| UserLink.LinkExternalUser | src/models/UserLink.js:57-91 | an existing document with the key is returned as "User already linked" and the store is unchanged; otherwise a complete new document is appended as "User linked successfully"; an incomplete one is rejected with the validation message and nothing is stored |
| UserLink.LinkKeepsValid | src/models/UserLink.js:36 | linking never stores an incomplete document and never duplicates the unique key |
| UserLink.LinkedExactlyOnce | src/models/UserLink.js:57-91 | after a successful link exactly one document carries the key |
| UserLink.LinkIdempotent | src/models/UserLink.js:60-70 | a second link with the same key returns the first one's document and changes nothing, whatever metadata it passes |
| UserLink.LinkThenLookup | src/models/UserLink.js:44-55 | a linked account is found by the email lookup afterwards, and is what it returns when it is the first with that provider, app and email |
| UserLink.TwoExternalIdsOneEmail | src/models/UserLink.js:36-39 | one provider, app and email can be linked under two external ids, and the lookup returns only the first |
| UserGoogleLink.MissingPaths | src/models/UserGoogleLink.js:4-23 | no required path is reported exactly when every required string is non-empty |
| UserGoogleLink.GetUserGoogleLinkByGoogleEmail | src/models/UserGoogleLink.js:34-46 | the first document with that Google email, whatever its app, or `null` exactly when there is none |
| UserGoogleLink.FindByKey | src/models/UserGoogleLink.js:51-55 | the first document with the three-field key, or none exactly when no document has it |
| UserGoogleLink.LinkExternalUser | src/models/UserGoogleLink.js:48-80 | an existing document with the key is returned unchanged; otherwise a complete new document is appended; an incomplete one is rejected with the validation message |
| UserGoogleLink.LinkKeepsValid | src/models/UserGoogleLink.js:26 | linking never stores an incomplete document and never duplicates the unique key |
| UserGoogleLink.LinkIdempotent | src/models/UserGoogleLink.js:51-60 | a second link with the same key returns the first one's document and changes nothing |
| UserGoogleLink.LinkThenLookup | src/models/UserGoogleLink.js:34-46 | an email linked under one app is found by the lookup afterwards, on behalf of any app |
| UserGoogleLink.OneEmailTwoApps | src/models/UserGoogleLink.js:26-37 | one Google account linked in two apps is two documents, and the lookup returns the first app's |
| GitLab.CreateGitLabClientByApp | src/config/gitlab.js:5-24 | an unknown app fails with its message first; an unknown provider or a bad `redirect_url` then fails; otherwise, exactly when the `redirect_url` parses, the client has the provider's id and secret and its redirect URL with `appId` appended as the last parameter |
| GitLab.TokenRequestBody | src/config/gitlab.js:39-45 | the form body reads back as exactly the five parameters, and its `redirect_uri` reads back as the client's redirect URI |
| GitLab.TokenRedirectNamesApp | src/config/gitlab.js:22-45 | the redirect URI sent in the token exchange ends with the app's id |
| GitLab.GivenName | src/config/gitlab.js:109 | the given name has no space |
| GitLab.NameRoundTrip | src/config/gitlab.js:109-110 | given name, a space and family name give back the name when it has a space; otherwise all of it is the given name |
| GitLab.ToClaims | src/config/gitlab.js:106-114 | `sub` reads back as the user's id; name, picture and email are copied; `email_verified` holds exactly when `confirmed_at` is not `null` |
| GitLab.MissingConfirmationCountsAsVerified | src/config/gitlab.js:113 | a user without `confirmed_at` counts as verified, and one with `null` does not |
| GitLab.GetGitLabDetailsGivenCode | src/config/gitlab.js:47-114 | a failed token or user call is re-raised; a `null` token answer throws on `access_token`; a `null` user answer throws on `id`; otherwise the result is the user's claims |
| ApiAuth.BearerToken | external-app/api/apiAuthMiddleware.js:18 | the compared token has no space |
| ApiAuth.Decide | external-app/api/apiAuthMiddleware.js:11-33 | a request passes exactly when the bearer check or the key-header check admits it; otherwise it gets 403 with the fixed error |
| ApiAuth.BearerCheck | external-app/api/apiAuthMiddleware.js:17-23 | the second space-separated segment equals the key exactly when the header is `Bearer <key>`, alone or followed by a space |
| ApiAuth.TrailingSegmentsIgnored | external-app/api/apiAuthMiddleware.js:18 | segments after the token are ignored |
| ApiAuth.UnsetKeyAdmitsNobody | external-app/api/apiAuthMiddleware.js:14-29 | with no configured key every request is refused |
| ApiAuth.EmptyKeyAdmitsBareBearer | external-app/api/apiAuthMiddleware.js:17-23 | an empty configured key admits a received header whose token segment is empty, such as `Bearer  x` or `Bearer ` |
| ApiAuth.EmptyKeyRefusesBearerAlone | external-app/api/apiAuthMiddleware.js:17-29 | an empty configured key refuses a received `Bearer` alone, and no key header passes |
| ApiAuth.TrimStart | external-app/api/apiAuthMiddleware.js:12 | the result is a suffix of the value, everything dropped is a space or tab, and it does not start with one |
| ApiAuth.TrimEnd | external-app/api/apiAuthMiddleware.js:12 | the result is a prefix of the value, everything dropped is a space or tab, and it does not end with one |
| ApiAuth.BareBearerArrivesTrimmed | external-app/api/apiAuthMiddleware.js:12-17 | a header sent as `Bearer ` arrives as `Bearer` |
| ExternalApi.UserByEmail | external-app/api/index.js:259-270 | the first user with that email, or none exactly when no user has it |
| ExternalApi.SetMetadata | external-app/api/index.js:293-304 | only the rows with that email and user get the new metadata; every other row is unchanged |
| ExternalApi.StoredMetadata | external-app/api/index.js:296 | metadata is stored exactly when it is a non-empty string, and `null` otherwise |
| ExternalApi.LinkGoogleEmail | external-app/api/index.js:249-327 | 400 exactly when an email is missing or empty; 404 exactly when the user is unknown; 200 exactly when the link exists, and only its metadata changes; 500 exactly when the Google email is bound to another user; otherwise 201 with one row appended; the failures change nothing |
| ExternalApi.LinkKeepsValid | external-app/api/index.js:309-326 | the handler never breaks the tables' unique constraints |
| ExternalApi.LinkRepeat | external-app/api/index.js:278-306 | repeating a successful request answers 200 and changes nothing |
| ExternalApi.Identifier | external-app/api/index.js:196-197 | the identifier splits at `_` into exactly two parts: the first reads back as the user's id, the second as the client id, or is `null` when the user has none |
| ExternalApi.ClientIdText | external-app/api/index.js:197 | the client id's text has no `_` and reads back as the client id, and a missing client id prints as `null` |
| ExternalApi.JoinRow | external-app/api/index.js:179-191 | the first `users_google` row with that email whose user exists, with the first user of that id; none exactly when no such row exists |
| ExternalApi.ExternalId | external-app/api/index.js:174-205 | `null` exactly when no joined row exists, and that user's identifier otherwise |
| ExternalApi.LinkThenExternalId | external-app/api/index.js:196-200 | after a successful link the email's identifier names the linked user |
| AuthRoutes.AuthorizeUrl | src/routes/auth.js:12-19 | the redirect reads back as Google's endpoint with exactly `client_id`, `redirect_uri`, `response_type=code` and `scope=profile email`, in that order |
| AuthRoutes.AsWrittenSendsUndefined | src/routes/auth.js:5-19 | as written, the redirect carries `client_id=undefined` and a `redirect_uri` that is not a URL |
| AuthRoutes.AuthorizeUrlForApp | src/config/google.js:6-17 | the redirect carries the app's `GOOGLE_CLIENT_ID`, and a redirect URI that reads back as the app's `GOOGLE_REDIRECT_URI` with `appId` appended; an unknown app fails with its message; a found app succeeds exactly when its redirect URI parses, and fails with `Invalid URL` otherwise |
| AuthRoutes.AuthorizeCarriesRedirect | src/config/google.js:15-17 | a redirect URI sent through the authorize URL reads back unchanged |
| AuthRoutes.CallExternalApi | src/routes/auth.js:97-127 | the request is built from `EXTERNAL_APP_API_URL` and `EXTERNAL_APP_API_KEY`, the payload travels as query parameters exactly for GET and as the body exactly for POST, and a failure is re-raised with its own error |
| AuthRoutes.CallHelpersAgree | src/routes/auth.js:97-127 | with the same settings both helpers send the same request; on failure the app-scoped one yields `null` and this one re-raises |
| AuthRoutes.ExternalIdPath | src/routes/auth.js:151-156 | the path is `/external-id/` and a segment that has no `/` and decodes back to the email |
| AuthRoutes.LookupRequest | src/routes/auth.js:151-156 | the lookup is a GET of that path with no payload |
| AuthRoutes.InjectLinked | src/routes/auth.js:129-149 | `linked` is unset exactly when the lookup raises, and true exactly when the answer is an object with a truthy `identifier` |
| AuthRoutes.NullIdentifierNotLinked | src/routes/auth.js:141-145 | a `null`, empty or absent identifier means not linked |
| AuthRoutes.JwtRequest | src/routes/auth.js:158-162 | the JWT request is a GET carrying `{ googleEmail }` as query parameters |
| AuthRoutes.FetchJwt | src/routes/auth.js:158-180 | a truthy `token` is returned; otherwise `USER_NOT_FOUND` yields `null`; otherwise it raises `Failed to fetch JWT: ` with the error or `Unknown error`; a failed call or a `null` answer raises |
| AuthRoutes.FetchJwtReadsAnswer | src/routes/auth.js:158-180 | each outcome a lookup can end in (a non-empty token, no user, or a raised error) is read back from the answer that stands for it |
| AuthRoutes.JwtErrorNamed | src/routes/auth.js:165-173 | an error other than `USER_NOT_FOUND` is named in the raised message, and an empty one becomes `Unknown error` |
| AuthRoutes.TokenRedirect | src/routes/auth.js:41-51 | there is a redirect exactly when the lookup did not raise; it is `EXTERNAL_APP_URL/?_token=` followed by the token, or by `null` |
| AuthRoutes.LinkFields | src/routes/auth.js:57-59 | the fields have no comma, and joined with commas they give back the setting, `email,password` by default |
| AuthRoutes.LinkFieldsDefault | src/routes/auth.js:57-59 | unset or empty, the fields are `email` and `password` |
| AuthRoutes.CallbackAsWritten | src/routes/auth.js:21-35 | as written, every token exchange that answers (a `null` body included) fails on reading `verifyIdToken` of `undefined` |
| AuthRoutes.Callback | src/routes/auth.js:21-76 | a failed exchange or ID-token check renders the error view; otherwise the view carries the email and `linked`, the raw link fields, and a redirect exactly when `linked` holds and the JWT lookup did not raise |
| AuthRoutes.CallbackAsWrittenNeverSignsIn | src/routes/auth.js:5-35 | as written the callback always renders the error view, where the app's client renders the sign-in view |
| AuthRoutes.JwtFailureStillRenders | src/routes/auth.js:41-51 | a failed JWT lookup does not abort the callback |
| AuthRoutes.LinkRequest | src/routes/auth.js:82-86 | the link request POSTs the form body to `/googleauth/link` |
| AuthRoutes.LinkGoogleAccount | src/routes/auth.js:78-95 | a failed call is not handled; a `null` answer cannot be destructured; any object answer yields `EXTERNAL_APP_URL/?_token=` followed by its token |
| AuthRoutes.LinkWithoutToken | src/routes/auth.js:87-93 | an answer without a token still redirects, with `undefined` as the token |
| Linking.BrokerRequestAdmitted | external-app/api/apiAuthMiddleware.js:11-29 | a service that mounts the middleware, judging the header as Node delivers it with surrounding whitespace trimmed, admits a broker request sent with a non-empty, space-free key that does not end in a tab exactly when it is configured with the same key; with an empty key or one ending in a tab, the service configured with that same key refuses the broker |
| Linking.HeaderKept | external-app/api/apiAuthMiddleware.js:12 | `Bearer <key>` arrives unchanged when the key is non-empty and does not end in a tab |
| Linking.TrimmedKeyRefused | external-app/api/apiAuthMiddleware.js:17-29 | `Bearer <key>` with an empty or tab-ended key arrives shortened, and the service configured with that key refuses it |
| Linking.SentKeyAdmitted | external-app/api/apiAuthMiddleware.js:17-23 | `Bearer <key>` with a space-free key passes exactly when the configured key is that key |
| Linking.NoSecondSegment | external-app/api/apiAuthMiddleware.js:18 | a space-free key is never followed by a further segment |
| Linking.LinkedEmailReportedLinked | src/routes/auth.js:141-142 | the service reads back the email the broker asked about, and once it has linked that email the broker marks the user as linked |
| Linking.UnlinkedEmailReportedUnlinked | external-app/api/index.js:198-200 | an email with no linked user is reported as not linked |
| Url.UrlRoundTrip | src/config/gitlab.js:22-24 | a URL written with `toString()` reads back as the same location and parameters |
| Url.FormSerializeRoundTrip | src/config/gitlab.js:39-45 | form-encoded parameters read back as the same pairs, in order |
| Url.ComponentRoundTrip | src/routes/auth.js:154 | `decodeURIComponent` undoes `encodeURIComponent` |
| Decimal.IntToStringRoundTrip | src/config/gitlab.js:107 | an integer's decimal text reads back as that integer |
| Text.JoinSplit | src/routes/auth.js:57-66 | joining the pieces of a split with the same separator gives back the text |
| Text.SplitJoin | src/apps.js:25-26 | separator-free pieces joined and split again give back the pieces |

## Left out

- I/O is left out: the axios calls, Google's and GitLab's endpoints, and the ID-token signature check. Their outcomes are parameters.
- Database driver failures are left out: the sqlite tables and the mongoose collections are plain sequences, and every query on them succeeds. A failing query is therefore not modelled. It is the 500 that `external-app/api/index.js:323-326` answers, and the error that `linkExternalUser` rethrows at `src/models/UserLink.js:86-90` and `src/models/UserGoogleLink.js:75-79`.
- Express routing, EJS rendering, `app.listen`, and the pages of `src/server.js` and `src/routes/index.js` are HTTP and UI plumbing. The callback's view is a datatype.
- Logging is left out.
- Reading `apps.yml` and `.env` is file I/O. The parsed config is a parameter: its keys in order, and each app's string properties. A config without an `apps` map is not modelled, since `src/apps.js:30` would throw on it. An app whose record is `null` is not modelled either: `src/apps.js:34` would throw reading its `name`. `Apps.WellFormedConfig` states that the keys list every app once.
- Values other than strings are not modelled: numbers, booleans, nested objects in config records, JSON bodies and metadata.
- Apps.Override: `toUpperCase` is modelled on ASCII letters only, because full Unicode case mapping is not part of the model.
- ApiRequest.Build: the verb is upper-cased on ASCII letters only, so a verb such as `poſt`, which JavaScript upper-cases to `POST`, is not treated as POST. Every call site passes the literal `GET` or `POST`.
- Linking.BrokerRequestAdmitted: `external-app/api/index.js` does not mount `apiAuthMiddleware` (its only middleware is `express.json()`), so its routes answer without a key. The `/googleauth/*` routes the broker calls do not exist there either. The lemma states what a service that mounts the middleware does.
- ApiAuth.Received: of what Node's HTTP parser does to a header value, only the removal of spaces and tabs around it is modelled. A value with control characters, which Node rejects, is not modelled. `ApiAuth.Decide` takes its headers as received.
- Url.Parse: the URL standard's host and path normalisation and fragments are not modelled. A location is kept exactly as written, so it agrees with `new URL` only for a URL already in the standard's serialised form. One example it misses is `http://localhost:3000`, which the standard writes with a trailing `/`.
- Url.FormDecode: it fails where the URL standard's form decoding is lenient, such as a `%` that is not an escape or invalid UTF-8. The round-trip lemmas only concern text the code itself encodes.
- GitLab.CreateGitLabClientByApp: the configured `redirect_url` goes through the strict parse above. A value that `new URL` accepts but the model rejects, such as `https://x/cb?s=%`, fails with `Invalid URL` in the model. A value the standard would normalise, such as `http://localhost:3000`, keeps its configured text.
- AuthRoutes.AuthorizeUrlForApp: the same holds for the configured `GOOGLE_REDIRECT_URI`.
- GitLab.ToClaims: ids are unbounded integers, so the formatting of numbers beyond 2^53 and non-integer ids is not modelled. A `name` that is not a string is not modelled either.
- ExternalApi.LinkGoogleEmail: the sqlite queries are first-match scans of sequences. The race between the lookups and the insert is concurrency and is not modelled, and neither are foreign keys, which sqlite does not enforce by default.
- UserLink.LinkExternalUser: the race between `findOne` and `save` is concurrency and is not modelled. The unique index is a store invariant instead. Timestamps are not modelled. The validation message lists missing paths in schema order.
- `global.linkExternalUser`: both model files assign it with different arities, and the last one loaded wins. Each function is modelled separately.
- `src/config/google.js` is modelled only as far as the corrected authorize URL needs it, which is the app lookup and the `appId` append. `src/middleware/auth.js` and `migrateData` are not part of this model.
- Apps.ParseEntry: an entry's name is the text between the first and the second colon, since `split(":")` destructures only two pieces. Text after a second colon is dropped.

## Findings

| source | as written | input that shows it | evidently intended | confidence | as-written member | corrected member |
|---|---|---|---|---|---|---|
| src/routes/auth.js:5-10 | `client`, `clientId`, `clientSecret` and `redirectUri` are destructured from `../config/google`, which exports only `useGoogleAPI` (src/config/google.js:47-49), so all four are `undefined` | any request to `/google` redirects with `client_id=undefined&redirect_uri=undefined`; any `/google/callback` whose token exchange answers at all fails on `client.verifyIdToken` and renders the error view | the routes use the app's own Google client, as `createGoogleClientByApp(appId)` builds it | high; not executed | AuthRoutes.AuthorizeUrlAsWritten with AuthRoutes.AsWrittenSendsUndefined; AuthRoutes.CallbackAsWritten with AuthRoutes.CallbackAsWrittenNeverSignsIn | AuthRoutes.AuthorizeUrlForApp; AuthRoutes.Callback |
