/** The demo account service (`external-app/api/index.js`): the `users` and
    `users_google` tables as sequences of rows, the `/link-google-email`
    handler as a transition of the tables with the HTTP status it answers,
    and the `/external-id/:googleEmail` identifier `userId_clientId`. */
module ExternalApi {
  import opened Wrappers
  import opened Js
  import opened Text
  import opened Decimal

  datatype User = User(id: int, email: string, name: string, clientId: Option<int>)

  datatype GoogleRow = GoogleRow(userId: int, googleEmail: string, googleMetadata: Option<string>)

  datatype Db = Db(users: seq<User>, usersGoogle: seq<GoogleRow>)

  /** The table constraints: `users.id` is the primary key, `users.email`
      and `users_google.googleEmail` are `UNIQUE`. */
  predicate Valid(db: Db) {
    && (forall i, j :: 0 <= i < j < |db.users| ==> db.users[i].id != db.users[j].id)
    && (forall i, j :: 0 <= i < j < |db.users| ==> db.users[i].email != db.users[j].email)
    && (forall i, j :: 0 <= i < j < |db.usersGoogle| ==> db.usersGoogle[i].googleEmail != db.usersGoogle[j].googleEmail)
  }

  datatype Response = Response(status: nat, message: string)

  const BadRequest := Response(400, "Both googleEmail and userEmail are required.")
  const NotFound := Response(404, "User not found.")
  const Updated := Response(200, "Google email metadata updated successfully.")
  const Created := Response(201, "Google email linked successfully.")
  const ServerError := Response(500, "Internal Server Error")

  /** `SELECT id FROM users WHERE email = ?`: the first such user. */
  function UserByEmail(users: seq<User>, email: string): (r: Option<nat>)
    ensures r.None? <==> forall k :: 0 <= k < |users| ==> users[k].email != email
    ensures r.Some? ==> r.value < |users| && users[r.value].email == email
    ensures r.Some? ==> forall j :: 0 <= j < r.value ==> users[j].email != email
  {
    FindFirst(users, (u: User) => u.email == email)
  }

  /** `users_google` has a row linking `googleEmail` to `userId`. */
  predicate Linked(rows: seq<GoogleRow>, googleEmail: string, userId: int) {
    exists k :: 0 <= k < |rows| && rows[k].googleEmail == googleEmail && rows[k].userId == userId
  }

  predicate EmailTaken(rows: seq<GoogleRow>, googleEmail: string) {
    exists k :: 0 <= k < |rows| && rows[k].googleEmail == googleEmail
  }

  /** `UPDATE users_google SET googleMetadata = ? WHERE googleEmail = ? AND userId = ?`. */
  function SetMetadata(rows: seq<GoogleRow>, googleEmail: string, userId: int, m: Option<string>): (r: seq<GoogleRow>)
    ensures |r| == |rows|
    ensures forall k :: 0 <= k < |r| ==> r[k].googleEmail == rows[k].googleEmail && r[k].userId == rows[k].userId
    ensures forall k :: 0 <= k < |r| && rows[k].googleEmail == googleEmail && rows[k].userId == userId ==> r[k].googleMetadata == m
    ensures forall k :: 0 <= k < |r| && !(rows[k].googleEmail == googleEmail && rows[k].userId == userId) ==> r[k] == rows[k]
  {
    seq(|rows|, k requires 0 <= k < |rows| =>
      if rows[k].googleEmail == googleEmail && rows[k].userId == userId then rows[k].(googleMetadata := m) else rows[k])
  }

  /** `googleMetadata || null`. */
  function StoredMetadata(v: Value): (m: Option<string>)
    ensures m.Some? <==> Truthy(v)
    ensures m.Some? ==> v == Str(m.value)
  {
    if Truthy(v) then Some(v.s) else None
  }

  /** `POST /link-google-email` with body `{ googleEmail, userEmail,
      googleMetadata }`: the tables afterwards and the response. */
  function LinkGoogleEmail(db: Db, googleEmail: Value, userEmail: Value, googleMetadata: Value): (r: (Db, Response))
    ensures r.1 == BadRequest <==> !Truthy(googleEmail) || !Truthy(userEmail)
    ensures r.1 == NotFound <==> Truthy(googleEmail) && Truthy(userEmail) && UserByEmail(db.users, userEmail.s).None?
    ensures r.1 in {BadRequest, NotFound, ServerError} ==> r.0 == db
    ensures r.1 in {BadRequest, NotFound, Updated, Created, ServerError}
    ensures r.1 !in {BadRequest, NotFound} ==> Truthy(googleEmail) && Truthy(userEmail) && UserByEmail(db.users, userEmail.s).Some?
    ensures r.1 !in {BadRequest, NotFound} ==> var uid := db.users[UserByEmail(db.users, userEmail.s).value].id;
      && r.0.users == db.users
      && (r.1 == Updated <==> Linked(db.usersGoogle, googleEmail.s, uid))
      && (r.1 == Updated ==> r.0.usersGoogle == SetMetadata(db.usersGoogle, googleEmail.s, uid, StoredMetadata(googleMetadata)))
      && (r.1 == ServerError <==> !Linked(db.usersGoogle, googleEmail.s, uid) && EmailTaken(db.usersGoogle, googleEmail.s))
      && (r.1 == Created ==> r.0.usersGoogle == db.usersGoogle + [GoogleRow(uid, googleEmail.s, StoredMetadata(googleMetadata))])
  {
    if !Truthy(googleEmail) || !Truthy(userEmail) then (db, BadRequest)
    else match UserByEmail(db.users, userEmail.s)
      case None => (db, NotFound)
      case Some(i) =>
        var uid := db.users[i].id;
        var m := StoredMetadata(googleMetadata);
        if Linked(db.usersGoogle, googleEmail.s, uid) then
          (db.(usersGoogle := SetMetadata(db.usersGoogle, googleEmail.s, uid, m)), Updated)
        else if EmailTaken(db.usersGoogle, googleEmail.s) then
          (db, ServerError)
        else
          (db.(usersGoogle := db.usersGoogle + [GoogleRow(uid, googleEmail.s, m)]), Created)
  }

  /** The handler never breaks a table constraint. */
  lemma LinkKeepsValid(db: Db, googleEmail: Value, userEmail: Value, googleMetadata: Value)
    requires Valid(db)
    ensures Valid(LinkGoogleEmail(db, googleEmail, userEmail, googleMetadata).0)
  {
    var (db1, resp) := LinkGoogleEmail(db, googleEmail, userEmail, googleMetadata);
    if resp == Created {
      var rows := db1.usersGoogle;
      forall i, j | 0 <= i < j < |rows| ensures rows[i].googleEmail != rows[j].googleEmail {
        if j == |db.usersGoogle| {
          assert rows[i] == db.usersGoogle[i];
        }
      }
    }
  }

  /** Repeating a successful link request answers 200 and changes no row
      count; with the same metadata it changes nothing at all. */
  lemma LinkRepeat(db: Db, googleEmail: Value, userEmail: Value, googleMetadata: Value)
    requires LinkGoogleEmail(db, googleEmail, userEmail, googleMetadata).1 in {Updated, Created}
    ensures var db1 := LinkGoogleEmail(db, googleEmail, userEmail, googleMetadata).0;
      var (db2, resp2) := LinkGoogleEmail(db1, googleEmail, userEmail, googleMetadata);
      resp2 == Updated && db2 == db1
  {
    var (db1, resp1) := LinkGoogleEmail(db, googleEmail, userEmail, googleMetadata);
    var uid := db.users[UserByEmail(db.users, userEmail.s).value].id;
    var m := StoredMetadata(googleMetadata);
    if resp1 == Created {
      assert db1.usersGoogle[|db.usersGoogle|] == GoogleRow(uid, googleEmail.s, m);
    }
    assert Linked(db1.usersGoogle, googleEmail.s, uid);
    var rows2 := SetMetadata(db1.usersGoogle, googleEmail.s, uid, m);
    forall k | 0 <= k < |rows2| ensures rows2[k] == db1.usersGoogle[k] {
      if resp1 == Created && k == |db.usersGoogle| {
      } else if db1.usersGoogle[k].googleEmail == googleEmail.s && db1.usersGoogle[k].userId == uid {
        if resp1 == Updated {
          assert db1.usersGoogle[k].googleMetadata == m;
        }
      }
    }
  }

  // ---------------------------------------------------------------------
  // GET /external-id/:googleEmail

  /** `${userId}_${clientId}`; a `NULL` client id prints as `null`. It
      reads back as exactly two `_`-separated parts: the user id, and the
      client id or `null`. */
  function Identifier(u: User): (r: string)
    ensures StartsWith(r, IntToString(u.id) + "_")
    ensures var parts := Split(r, '_');
      && |parts| == 2
      && ParseInt(parts[0]) == Some(u.id)
      && (u.clientId.None? ==> parts[1] == "null")
      && (u.clientId.Some? ==> ParseInt(parts[1]) == Some(u.clientId.value))
  {
    var head := IntToString(u.id);
    var tail := ClientIdText(u.clientId);
    IntToStringNoUnderscore(u.id);
    IntToStringRoundTrip(u.id);
    SplitPrefix(head, '_', tail);
    SplitWithout(tail, '_');
    assert (head + "_" + tail)[..|head| + 1] == head + "_";
    head + "_" + tail
  }

  /** The client id as the template literal prints it. */
  function ClientIdText(c: Option<int>): (t: string)
    ensures '_' !in t
    ensures c.None? ==> t == "null"
    ensures c.Some? ==> ParseInt(t) == Some(c.value)
  {
    match c
    case None => "null"
    case Some(n) =>
      IntToStringNoUnderscore(n);
      IntToStringRoundTrip(n);
      IntToString(n)
  }

  lemma IntToStringNoUnderscore(n: int)
    ensures '_' !in IntToString(n)
  {
    var s := IntToString(n);
    if n < 0 {
      assert s[1..] == NatToString(-n);
      assert forall k :: 1 <= k < |s| ==> IsDigit(s[k]) by {
        forall k | 1 <= k < |s| ensures IsDigit(s[k]) {
          assert s[k] == s[1..][k - 1];
        }
      }
    }
  }

  predicate HasUserId(users: seq<User>, id: int) {
    exists i :: 0 <= i < |users| && users[i].id == id
  }

  /** The row of `users_google JOIN users` for `googleEmail`, if any: the first
      link row with that email whose user exists, and that user. */
  function JoinRow(db: Db, googleEmail: string): (r: Option<(nat, nat)>)
    ensures r.None? <==> forall k :: 0 <= k < |db.usersGoogle| ==>
      !(db.usersGoogle[k].googleEmail == googleEmail && HasUserId(db.users, db.usersGoogle[k].userId))
    ensures r.Some? ==> r.value.0 < |db.usersGoogle| && r.value.1 < |db.users|
    ensures r.Some? ==> db.usersGoogle[r.value.0].googleEmail == googleEmail
    ensures r.Some? ==> db.users[r.value.1].id == db.usersGoogle[r.value.0].userId
    ensures r.Some? ==> forall j :: 0 <= j < r.value.0 ==>
      !(db.usersGoogle[j].googleEmail == googleEmail && HasUserId(db.users, db.usersGoogle[j].userId))
    ensures r.Some? ==> forall j :: 0 <= j < r.value.1 ==> db.users[j].id != db.users[r.value.1].id
  {
    var p := (row: GoogleRow) => row.googleEmail == googleEmail && HasUserId(db.users, row.userId);
    match FindFirst(db.usersGoogle, p)
    case None =>
      assert forall k :: 0 <= k < |db.usersGoogle| ==> !p(db.usersGoogle[k]);
      None
    case Some(k) =>
      var uid := db.usersGoogle[k].userId;
      assert p(db.usersGoogle[k]);
      match FindFirst(db.users, (u: User) => u.id == uid)
      case None =>
        assert false;
        None
      case Some(i) =>
        assert forall j :: 0 <= j < k ==> !p(db.usersGoogle[j]);
        Some((k, i))
  }

  /** The `identifier` of the JSON answer: `userId_clientId` for a linked
      email, `null` otherwise. */
  function ExternalId(db: Db, googleEmail: string): (r: Value)
    ensures r == Null <==> JoinRow(db, googleEmail).None?
    ensures r != Null ==> r == Str(Identifier(db.users[JoinRow(db, googleEmail).value.1]))
  {
    match JoinRow(db, googleEmail)
    case None => Null
    case Some((_, i)) => Str(Identifier(db.users[i]))
  }

  /** After a successful link, the external id of the Google email is the
      identifier of the user it was linked to. */
  lemma LinkThenExternalId(db: Db, googleEmail: Value, userEmail: Value, googleMetadata: Value)
    requires Valid(db)
    requires LinkGoogleEmail(db, googleEmail, userEmail, googleMetadata).1 in {Updated, Created}
    ensures var db1 := LinkGoogleEmail(db, googleEmail, userEmail, googleMetadata).0;
      ExternalId(db1, googleEmail.s) == Str(Identifier(db.users[UserByEmail(db.users, userEmail.s).value]))
  {
    var db1 := LinkGoogleEmail(db, googleEmail, userEmail, googleMetadata).0;
    var i := UserByEmail(db.users, userEmail.s).value;
    var uid := db.users[i].id;
    var g := googleEmail.s;
    LinkKeepsValid(db, googleEmail, userEmail, googleMetadata);
    var k :| 0 <= k < |db1.usersGoogle| && db1.usersGoogle[k].googleEmail == g && db1.usersGoogle[k].userId == uid by {
      if LinkGoogleEmail(db, googleEmail, userEmail, googleMetadata).1 == Created {
        assert db1.usersGoogle[|db.usersGoogle|].googleEmail == g;
      } else {
        var k0 :| 0 <= k0 < |db.usersGoogle| && db.usersGoogle[k0].googleEmail == g && db.usersGoogle[k0].userId == uid;
        assert db1.usersGoogle[k0].googleEmail == g;
      }
    }
    assert HasUserId(db1.users, uid);
    var (k1, i1) := JoinRow(db1, g).value;
    assert k1 == k;
    assert i1 == i;
  }
}
