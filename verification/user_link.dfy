/** The `UserLink` collection of `src/models/UserLink.js`: one document per
    linked account, keyed by provider, app, external user id and email,
    with the lookup by provider, app and email and the find-or-create
    `linkExternalUser`. The collection is a sequence in insertion order and
    every operation is a transition from the old collection to the new. */
module UserLink {
  import opened Wrappers
  import opened Text
  import opened Mongo

  datatype Link = Link(providerId: string, appId: string, externalUserId: string, email: string, metadata: Metadata)

  type Store = seq<Link>

  /** `l` has the unique index's key `(providerId, appId, externalUserId, email)`. */
  predicate HasKey(l: Link, providerId: string, appId: string, externalUserId: string, email: string) {
    l.providerId == providerId && l.appId == appId && l.externalUserId == externalUserId && l.email == email
  }

  /** `l` matches the lookup filter `{ providerId, appId, email }`. */
  predicate HasEmail(l: Link, providerId: string, appId: string, email: string) {
    l.providerId == providerId && l.appId == appId && l.email == email
  }

  /** Every required string path is non-empty. */
  predicate Complete(l: Link) {
    l.externalUserId != "" && l.email != "" && l.appId != "" && l.providerId != ""
  }

  /** What the schema guarantees of a stored collection: complete documents
      and a unique compound key. */
  predicate Valid(s: Store) {
    && (forall k :: 0 <= k < |s| ==> Complete(s[k]))
    && (forall i, j :: 0 <= i < j < |s| ==> !HasKey(s[j], s[i].providerId, s[i].appId, s[i].externalUserId, s[i].email))
  }

  /** The required paths `l` leaves empty, in schema order. */
  function MissingPaths(l: Link): (r: seq<string>)
    ensures |r| == 0 <==> Complete(l)
  {
    (if l.externalUserId == "" then ["externalUserId"] else []) +
    (if l.email == "" then ["email"] else []) +
    (if l.appId == "" then ["appId"] else []) +
    (if l.providerId == "" then ["providerId"] else [])
  }

  /** `s[k]` is the first document with that provider, app and email. */
  predicate FirstWithEmail(s: Store, k: nat, providerId: string, appId: string, email: string)
    requires k < |s|
  {
    HasEmail(s[k], providerId, appId, email) && forall j :: 0 <= j < k ==> !HasEmail(s[j], providerId, appId, email)
  }

  /** `getUserLinkByEmail(providerId, appId, email)`: the first document
      with that provider, app and email, or `null`. */
  function GetUserLinkByEmail(s: Store, providerId: string, appId: string, email: string): (r: Option<Link>)
    ensures r.None? <==> forall k :: 0 <= k < |s| ==> !HasEmail(s[k], providerId, appId, email)
    ensures r.Some? ==> exists k :: 0 <= k < |s| && s[k] == r.value && FirstWithEmail(s, k, providerId, appId, email)
  {
    match FindFirst(s, (l: Link) => HasEmail(l, providerId, appId, email))
    case Some(k) => Some(s[k])
    case None => None
  }

  /** The first document with the full key, as `findOne` on the unique index. */
  function FindByKey(s: Store, providerId: string, appId: string, externalUserId: string, email: string): (r: Option<nat>)
    ensures r.None? <==> forall k :: 0 <= k < |s| ==> !HasKey(s[k], providerId, appId, externalUserId, email)
    ensures r.Some? ==> r.value < |s| && HasKey(s[r.value], providerId, appId, externalUserId, email)
    ensures r.Some? ==> forall j :: 0 <= j < r.value ==> !HasKey(s[j], providerId, appId, externalUserId, email)
  {
    FindFirst(s, (l: Link) => HasKey(l, providerId, appId, externalUserId, email))
  }

  /** The resolved value of `linkExternalUser`. */
  datatype Outcome = Outcome(message: string, document: Link)

  /** `linkExternalUser(providerId, appId, externalUserId, email, metadata)`:
      the existing document with the same key, or a new one saved with the
      given fields; a rejected save leaves the collection as it was. */
  function LinkExternalUser(s: Store, providerId: string, appId: string, externalUserId: string, email: string,
                            metadata: Option<Metadata>): (r: (Store, Result<Outcome>))
    ensures (exists k :: 0 <= k < |s| && HasKey(s[k], providerId, appId, externalUserId, email)) ==>
      && r.0 == s
      && r.1.Ok? && r.1.value.message == "User already linked"
      && r.1.value.document in s
      && HasKey(r.1.value.document, providerId, appId, externalUserId, email)
    ensures (forall k :: 0 <= k < |s| ==> !HasKey(s[k], providerId, appId, externalUserId, email)) ==>
      var doc := Link(providerId, appId, externalUserId, email, OrEmpty(metadata));
      && (Complete(doc) ==> r.0 == s + [doc] && r.1 == Ok(Outcome("User linked successfully", doc)))
      && (!Complete(doc) ==> r.0 == s && r.1 == Err(ValidationMessage("UserLink", MissingPaths(doc))))
  {
    match FindByKey(s, providerId, appId, externalUserId, email)
    case Some(k) => (s, Ok(Outcome("User already linked", s[k])))
    case None =>
      var doc := Link(providerId, appId, externalUserId, email, OrEmpty(metadata));
      if Complete(doc) then (s + [doc], Ok(Outcome("User linked successfully", doc)))
      else (s, Err(ValidationMessage("UserLink", MissingPaths(doc))))
  }

  /** Linking keeps the collection valid: the unique index is never
      violated and no incomplete document is stored. */
  lemma LinkKeepsValid(s: Store, providerId: string, appId: string, externalUserId: string, email: string,
                       metadata: Option<Metadata>)
    requires Valid(s)
    ensures Valid(LinkExternalUser(s, providerId, appId, externalUserId, email, metadata).0)
  {
    var s1 := LinkExternalUser(s, providerId, appId, externalUserId, email, metadata).0;
    if FindByKey(s, providerId, appId, externalUserId, email).None? && s1 != s {
      forall i, j | 0 <= i < j < |s1|
        ensures !HasKey(s1[j], s1[i].providerId, s1[i].appId, s1[i].externalUserId, s1[i].email)
      {
        if j == |s| {
          assert !HasKey(s[i], providerId, appId, externalUserId, email);
        }
      }
    }
  }

  /** After a successful link exactly one document carries the key. */
  lemma LinkedExactlyOnce(s: Store, providerId: string, appId: string, externalUserId: string, email: string,
                          metadata: Option<Metadata>)
    requires Valid(s)
    requires LinkExternalUser(s, providerId, appId, externalUserId, email, metadata).1.Ok?
    ensures var s1 := LinkExternalUser(s, providerId, appId, externalUserId, email, metadata).0;
      exists k :: 0 <= k < |s1| && HasKey(s1[k], providerId, appId, externalUserId, email) &&
        forall j :: 0 <= j < |s1| && HasKey(s1[j], providerId, appId, externalUserId, email) ==> j == k
  {
    var s1 := LinkExternalUser(s, providerId, appId, externalUserId, email, metadata).0;
    LinkKeepsValid(s, providerId, appId, externalUserId, email, metadata);
    var k :| 0 <= k < |s1| && HasKey(s1[k], providerId, appId, externalUserId, email);
    forall j | 0 <= j < |s1| && HasKey(s1[j], providerId, appId, externalUserId, email) ensures j == k {
    }
  }

  /** Linking twice with the same key is the same as linking once: the
      second call finds the first call's document and changes nothing,
      whatever metadata it passes. */
  lemma LinkIdempotent(s: Store, providerId: string, appId: string, externalUserId: string, email: string,
                       metadata: Option<Metadata>, metadata2: Option<Metadata>)
    requires LinkExternalUser(s, providerId, appId, externalUserId, email, metadata).1.Ok?
    ensures var (s1, r1) := LinkExternalUser(s, providerId, appId, externalUserId, email, metadata);
      var (s2, r2) := LinkExternalUser(s1, providerId, appId, externalUserId, email, metadata2);
      s2 == s1 && r2 == Ok(Outcome("User already linked", r1.value.document))
  {
    var (s1, r1) := LinkExternalUser(s, providerId, appId, externalUserId, email, metadata);
    match FindByKey(s, providerId, appId, externalUserId, email)
    case Some(k) =>
      assert FindByKey(s1, providerId, appId, externalUserId, email) == Some(k);
    case None =>
      assert |s1| == |s| + 1 && HasKey(s1[|s|], providerId, appId, externalUserId, email);
      assert forall j :: 0 <= j < |s| ==> s1[j] == s[j];
  }

  /** A linked account is found by the email lookup afterwards; when it is the
      first of its provider, app and email, the lookup returns it. */
  lemma LinkThenLookup(s: Store, providerId: string, appId: string, externalUserId: string, email: string,
                       metadata: Option<Metadata>)
    requires LinkExternalUser(s, providerId, appId, externalUserId, email, metadata).1.Ok?
    ensures var (s1, r1) := LinkExternalUser(s, providerId, appId, externalUserId, email, metadata);
      && GetUserLinkByEmail(s1, providerId, appId, email).Some?
      && (GetUserLinkByEmail(s, providerId, appId, email).None? ==>
            GetUserLinkByEmail(s1, providerId, appId, email) == Some(r1.value.document))
  {
    var (s1, r1) := LinkExternalUser(s, providerId, appId, externalUserId, email, metadata);
    var d := r1.value.document;
    var k :| 0 <= k < |s1| && s1[k] == d;
    assert HasEmail(s1[k], providerId, appId, email);
    if GetUserLinkByEmail(s, providerId, appId, email).None? {
      assert s1 == s + [d];
      assert forall j :: 0 <= j < |s| ==> s1[j] == s[j];
    }
  }

  /** The unique key includes `externalUserId` but the lookup does not: one
      provider, app and email can be linked under two external ids, and the
      lookup returns only the first of them. */
  lemma TwoExternalIdsOneEmail()
    ensures var (s1, _) := LinkExternalUser([], "gitlab", "app", "41", "ada@example.org", None);
      var (s2, r2) := LinkExternalUser(s1, "gitlab", "app", "42", "ada@example.org", None);
      && r2 == Ok(Outcome("User linked successfully", Link("gitlab", "app", "42", "ada@example.org", map[])))
      && |s2| == 2
      && GetUserLinkByEmail(s2, "gitlab", "app", "ada@example.org") == Some(Link("gitlab", "app", "41", "ada@example.org", map[]))
  {
    var (s1, _) := LinkExternalUser([], "gitlab", "app", "41", "ada@example.org", None);
    assert s1 == [Link("gitlab", "app", "41", "ada@example.org", map[])];
    assert !HasKey(s1[0], "gitlab", "app", "42", "ada@example.org");
  }
}
