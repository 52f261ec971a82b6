/** The `UserGoogleLink` collection of `src/models/UserGoogleLink.js`: one
    document per Google account linked to an app's user, keyed by app,
    external user id and Google email, with the lookup by Google email and
    the find-or-create `linkExternalUser`. */
module UserGoogleLink {
  import opened Wrappers
  import opened Text
  import opened Mongo

  datatype Link = Link(appId: string, externalUserId: string, googleEmail: string, googleMetadata: Metadata)

  type Store = seq<Link>

  /** `l` has the unique index's key `(appId, externalUserId, googleEmail)`. */
  predicate HasKey(l: Link, appId: string, externalUserId: string, googleEmail: string) {
    l.appId == appId && l.externalUserId == externalUserId && l.googleEmail == googleEmail
  }

  predicate Complete(l: Link) {
    l.externalUserId != "" && l.googleEmail != "" && l.appId != ""
  }

  predicate Valid(s: Store) {
    && (forall k :: 0 <= k < |s| ==> Complete(s[k]))
    && (forall i, j :: 0 <= i < j < |s| ==> !HasKey(s[j], s[i].appId, s[i].externalUserId, s[i].googleEmail))
  }

  /** The required paths `l` leaves empty, in schema order. */
  function MissingPaths(l: Link): (r: seq<string>)
    ensures |r| == 0 <==> Complete(l)
  {
    (if l.externalUserId == "" then ["externalUserId"] else []) +
    (if l.googleEmail == "" then ["googleEmail"] else []) +
    (if l.appId == "" then ["appId"] else [])
  }

  /** `s[k]` is the first document with that Google email. */
  predicate FirstWithGoogleEmail(s: Store, k: nat, googleEmail: string)
    requires k < |s|
  {
    s[k].googleEmail == googleEmail && forall j :: 0 <= j < k ==> s[j].googleEmail != googleEmail
  }

  /** `getUserGoogleLinkByGoogleEmail(googleEmail)`: the first document with
      that Google email, whatever its app, or `null`. */
  function GetUserGoogleLinkByGoogleEmail(s: Store, googleEmail: string): (r: Option<Link>)
    ensures r.None? <==> forall k :: 0 <= k < |s| ==> s[k].googleEmail != googleEmail
    ensures r.Some? ==> exists k :: 0 <= k < |s| && s[k] == r.value && FirstWithGoogleEmail(s, k, googleEmail)
  {
    match FindFirst(s, (l: Link) => l.googleEmail == googleEmail)
    case Some(k) => Some(s[k])
    case None => None
  }

  /** The first document with the full key. */
  function FindByKey(s: Store, appId: string, externalUserId: string, googleEmail: string): (r: Option<nat>)
    ensures r.None? <==> forall k :: 0 <= k < |s| ==> !HasKey(s[k], appId, externalUserId, googleEmail)
    ensures r.Some? ==> r.value < |s| && HasKey(s[r.value], appId, externalUserId, googleEmail)
    ensures r.Some? ==> forall j :: 0 <= j < r.value ==> !HasKey(s[j], appId, externalUserId, googleEmail)
  {
    FindFirst(s, (l: Link) => HasKey(l, appId, externalUserId, googleEmail))
  }

  /** The resolved value of `linkExternalUser`: its message and the
      `userGoogleLink` document. */
  datatype Outcome = Outcome(message: string, userGoogleLink: Link)

  /** `linkExternalUser(appId, externalUserId, googleEmail, googleMetadata)`. */
  function LinkExternalUser(s: Store, appId: string, externalUserId: string, googleEmail: string,
                            googleMetadata: Option<Metadata>): (r: (Store, Result<Outcome>))
    ensures (exists k :: 0 <= k < |s| && HasKey(s[k], appId, externalUserId, googleEmail)) ==>
      && r.0 == s
      && r.1.Ok? && r.1.value.message == "User already linked"
      && r.1.value.userGoogleLink in s
      && HasKey(r.1.value.userGoogleLink, appId, externalUserId, googleEmail)
    ensures (forall k :: 0 <= k < |s| ==> !HasKey(s[k], appId, externalUserId, googleEmail)) ==>
      var doc := Link(appId, externalUserId, googleEmail, OrEmpty(googleMetadata));
      && (Complete(doc) ==> r.0 == s + [doc] && r.1 == Ok(Outcome("User linked successfully", doc)))
      && (!Complete(doc) ==> r.0 == s && r.1 == Err(ValidationMessage("UserGoogleLink", MissingPaths(doc))))
  {
    match FindByKey(s, appId, externalUserId, googleEmail)
    case Some(k) => (s, Ok(Outcome("User already linked", s[k])))
    case None =>
      var doc := Link(appId, externalUserId, googleEmail, OrEmpty(googleMetadata));
      if Complete(doc) then (s + [doc], Ok(Outcome("User linked successfully", doc)))
      else (s, Err(ValidationMessage("UserGoogleLink", MissingPaths(doc))))
  }

  lemma LinkKeepsValid(s: Store, appId: string, externalUserId: string, googleEmail: string,
                       googleMetadata: Option<Metadata>)
    requires Valid(s)
    ensures Valid(LinkExternalUser(s, appId, externalUserId, googleEmail, googleMetadata).0)
  {
    var s1 := LinkExternalUser(s, appId, externalUserId, googleEmail, googleMetadata).0;
    if FindByKey(s, appId, externalUserId, googleEmail).None? && s1 != s {
      forall i, j | 0 <= i < j < |s1|
        ensures !HasKey(s1[j], s1[i].appId, s1[i].externalUserId, s1[i].googleEmail)
      {
        if j == |s| {
          assert !HasKey(s[i], appId, externalUserId, googleEmail);
        }
      }
    }
  }

  /** Linking twice with the same key is the same as linking once. */
  lemma LinkIdempotent(s: Store, appId: string, externalUserId: string, googleEmail: string,
                       googleMetadata: Option<Metadata>, googleMetadata2: Option<Metadata>)
    requires LinkExternalUser(s, appId, externalUserId, googleEmail, googleMetadata).1.Ok?
    ensures var (s1, r1) := LinkExternalUser(s, appId, externalUserId, googleEmail, googleMetadata);
      var (s2, r2) := LinkExternalUser(s1, appId, externalUserId, googleEmail, googleMetadata2);
      s2 == s1 && r2 == Ok(Outcome("User already linked", r1.value.userGoogleLink))
  {
    var (s1, r1) := LinkExternalUser(s, appId, externalUserId, googleEmail, googleMetadata);
    match FindByKey(s, appId, externalUserId, googleEmail)
    case Some(k) =>
      assert FindByKey(s1, appId, externalUserId, googleEmail) == Some(k);
    case None =>
      assert |s1| == |s| + 1 && HasKey(s1[|s|], appId, externalUserId, googleEmail);
      assert forall j :: 0 <= j < |s| ==> s1[j] == s[j];
  }

  /** The lookup ignores the app: an email linked under one app is found by
      a lookup made on behalf of any other. */
  lemma LinkThenLookup(s: Store, appId: string, externalUserId: string, googleEmail: string,
                       googleMetadata: Option<Metadata>)
    requires LinkExternalUser(s, appId, externalUserId, googleEmail, googleMetadata).1.Ok?
    ensures var (s1, r1) := LinkExternalUser(s, appId, externalUserId, googleEmail, googleMetadata);
      && GetUserGoogleLinkByGoogleEmail(s1, googleEmail).Some?
      && (GetUserGoogleLinkByGoogleEmail(s, googleEmail).None? ==>
            GetUserGoogleLinkByGoogleEmail(s1, googleEmail) == Some(r1.value.userGoogleLink))
  {
    var (s1, r1) := LinkExternalUser(s, appId, externalUserId, googleEmail, googleMetadata);
    var d := r1.value.userGoogleLink;
    var k :| 0 <= k < |s1| && s1[k] == d;
    assert s1[k].googleEmail == googleEmail;
    if GetUserGoogleLinkByGoogleEmail(s, googleEmail).None? {
      assert s1 == s + [d];
      assert forall j :: 0 <= j < |s| ==> s1[j] == s[j];
    }
  }

  /** One Google account linked in two apps is two documents, and the lookup
      by email returns the first app's. */
  lemma OneEmailTwoApps()
    ensures var (s1, _) := LinkExternalUser([], "shop", "7", "ada@gmail.com", None);
      var (s2, r2) := LinkExternalUser(s1, "blog", "7", "ada@gmail.com", Some(map["locale" := "en"]));
      && r2 == Ok(Outcome("User linked successfully", Link("blog", "7", "ada@gmail.com", map["locale" := "en"])))
      && |s2| == 2
      && GetUserGoogleLinkByGoogleEmail(s2, "ada@gmail.com") == Some(Link("shop", "7", "ada@gmail.com", map[]))
  {
    var (s1, _) := LinkExternalUser([], "shop", "7", "ada@gmail.com", None);
    assert s1 == [Link("shop", "7", "ada@gmail.com", map[])];
    assert !HasKey(s1[0], "blog", "7", "ada@gmail.com");
  }
}
