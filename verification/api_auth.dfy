/** The API-key gate of the demo account service
    (`external-app/api/apiAuthMiddleware.js`): a request passes on a
    `Bearer` token equal to the configured key or on an `authorization-key`
    header equal to it, and is refused with 403 otherwise. */
module ApiAuth {
  import opened Js
  import opened Text

  datatype Decision = Next | Deny(status: nat, error: string)

  const Forbidden := Deny(403, "Forbidden: Invalid API Key or Token")

  /** `authHeader.split(' ')[1]` of a header that starts with `Bearer `. */
  function BearerToken(h: string): (token: string)
    requires StartsWith(h, "Bearer ")
    ensures ' ' !in token
  {
    assert h[..6] == "Bearer" && h[6] == ' ';
    SplitWith(h, ' ', 6);
    Split(h, ' ')[1]
  }

  /** The bearer check stated without `split`: the header is `Bearer `
      followed by the key, alone or followed by a space, and the key itself
      has no space. */
  predicate BearerAdmits(h: string, validKey: Value) {
    && validKey.Str?
    && ' ' !in validKey.s
    && (h == "Bearer " + validKey.s || StartsWith(h, "Bearer " + validKey.s + " "))
  }

  /** Optional whitespace around a header value. */
  predicate IsOws(c: char) {
    c == ' ' || c == '\t'
  }

  /** The value without its leading spaces and tabs. */
  function TrimStart(s: string): (r: string)
    ensures |r| <= |s| && r == s[|s| - |r|..]
    ensures forall k :: 0 <= k < |s| - |r| ==> IsOws(s[k])
    ensures |r| > 0 ==> !IsOws(r[0])
  {
    if |s| > 0 && IsOws(s[0]) then TrimStart(s[1..]) else s
  }

  /** The value without its trailing spaces and tabs. */
  function TrimEnd(s: string): (r: string)
    ensures |r| <= |s| && r == s[..|r|]
    ensures forall k :: |r| <= k < |s| ==> IsOws(s[k])
    ensures |r| > 0 ==> !IsOws(r[|r| - 1])
  {
    if |s| > 0 && IsOws(s[|s| - 1]) then TrimEnd(s[..|s| - 1]) else s
  }

  /** The header value the middleware receives: Node's HTTP parser drops
      the whitespace around the value as sent. */
  function Received(h: string): string {
    TrimEnd(TrimStart(h))
  }

  predicate KeyHeaderAdmits(apiKeyHeader: Value, validKey: Value) {
    Truthy(apiKeyHeader) && apiKeyHeader == validKey
  }

  /** `apiAuthMiddleware(req, res, next)` on the `authorization` and
      `authorization-key` headers and the configured
      `MICROSERVICE_GOOGLELOGIN_API_KEY`. */
  function Decide(authHeader: Value, apiKeyHeader: Value, validKey: Value): (d: Decision)
    ensures d.Next? <==> (authHeader.Str? && BearerAdmits(authHeader.s, validKey)) || KeyHeaderAdmits(apiKeyHeader, validKey)
    ensures d.Deny? ==> d == Forbidden
  {
    var keyCheck := if KeyHeaderAdmits(apiKeyHeader, validKey) then Next else Forbidden;
    if Truthy(authHeader) && StartsWith(authHeader.s, "Bearer ") then
      BearerCheck(authHeader.s, validKey);
      if Str(BearerToken(authHeader.s)) == validKey then Next else keyCheck
    else
      keyCheck
  }

  /** The token compared is the header's second space-separated segment;
      it equals the key exactly when `BearerAdmits` holds. */
  lemma BearerCheck(h: string, validKey: Value)
    requires StartsWith(h, "Bearer ")
    ensures Str(BearerToken(h)) == validKey <==> BearerAdmits(h, validKey)
  {
    var rest := h[7..];
    BearerTokenIsHead(h);
    if validKey.Str? {
      var k := validKey.s;
      SplitHeadIs(rest, ' ', k);
      PrefixCancel("Bearer ", rest, k);
      StartsWithAfter("Bearer ", rest, k + " ");
      assert "Bearer " + k + " " == "Bearer " + (k + " ");
    }
  }

  /** The token is the first segment of what follows `Bearer `. */
  lemma BearerTokenIsHead(h: string)
    requires StartsWith(h, "Bearer ")
    ensures h == "Bearer " + h[7..]
    ensures BearerToken(h) == Split(h[7..], ' ')[0]
  {
    assert h[..6] == "Bearer" && h[6] == ' ';
    SplitWith(h, ' ', 6);
    assert h == h[..7] + h[7..];
  }

  /** A bearer token followed by further segments is still accepted. */
  lemma TrailingSegmentsIgnored(key: string, extra: string)
    requires ' ' !in key
    ensures Decide(Str("Bearer " + key + " " + extra), Undefined, Str(key)) == Next
  {
    var h := "Bearer " + key + " " + extra;
    assert h[..|"Bearer " + key + " "|] == "Bearer " + key + " ";
  }

  /** Without a configured key no request passes. */
  lemma UnsetKeyAdmitsNobody(authHeader: Value, apiKeyHeader: Value)
    ensures Decide(authHeader, apiKeyHeader, Undefined) == Forbidden
  {
  }

  /** A configured empty key admits any header whose second space-separated
      segment is empty, such as `Bearer  x` with two spaces. The headers are
      the values the function receives. */
  lemma EmptyKeyAdmitsBareBearer()
    ensures Decide(Str("Bearer  x"), Undefined, Str("")) == Next
    ensures Decide(Str("Bearer "), Undefined, Str("")) == Next
  {
    assert "Bearer " + "" + " " + "x" == "Bearer  x";
    TrailingSegmentsIgnored("", "x");
    assert "Bearer " + "" == "Bearer ";
  }

  /** A configured empty key refuses a header of `Bearer` alone, which is
      what a bare `Bearer ` becomes once Node trims trailing whitespace, and
      refuses every key header, since the empty key is not truthy. */
  lemma EmptyKeyRefusesBearerAlone(apiKeyHeader: Value)
    ensures Decide(Str("Bearer"), Undefined, Str("")) == Forbidden
    ensures Decide(Undefined, apiKeyHeader, Str("")) == Forbidden
  {
    assert !StartsWith("Bearer", "Bearer ");
  }

  /** A bare `Bearer ` as sent arrives as `Bearer`. */
  lemma BareBearerArrivesTrimmed()
    ensures Received("Bearer ") == "Bearer"
  {
    var h := "Bearer ";
    assert !IsOws(h[0]);
    assert TrimStart(h) == h;
    assert IsOws(h[6]) && h[..6] == "Bearer";
    assert !IsOws("Bearer"[5]);
    assert TrimEnd("Bearer") == "Bearer";
  }
}
