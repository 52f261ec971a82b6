/** URLs as the WHATWG URL standard's `URL` and `URLSearchParams` objects
    treat them: a location (scheme, host and path) followed by an ordered
    list of name/value query pairs, serialised with the
    application/x-www-form-urlencoded byte serializer; and
    `encodeURIComponent` with its inverse `decodeURIComponent`. */
module Url {
  import opened Wrappers
  import opened Text
  import Utf8

  // ---------------------------------------------------------------------
  // Hexadecimal escapes

  function HexDigit(d: nat): (c: char)
    requires d < 16
    ensures HexValue(c) == Some(d)
  {
    "0123456789ABCDEF"[d]
  }

  function HexValue(c: char): (r: Option<nat>)
    ensures r.Some? ==> r.value < 16
  {
    if '0' <= c <= '9' then Some(c as int - '0' as int)
    else if 'A' <= c <= 'F' then Some(c as int - 'A' as int + 10)
    else if 'a' <= c <= 'f' then Some(c as int - 'a' as int + 10)
    else None
  }

  predicate IsAlnum(c: char) {
    ('a' <= c <= 'z') || ('A' <= c <= 'Z') || ('0' <= c <= '9')
  }

  /** `%XX` for every byte, upper-case hex digits. */
  function PercentBytes(bs: seq<Utf8.Byte>): (r: string)
    ensures forall k :: 0 <= k < |r| ==> r[k] == '%' || IsAlnum(r[k])
  {
    if |bs| == 0 then ""
    else ['%', HexDigit(bs[0] / 16), HexDigit(bs[0] % 16)] + PercentBytes(bs[1..])
  }

  // ---------------------------------------------------------------------
  // Encoders

  /** The characters `encodeURIComponent` leaves as they are. */
  predicate ComponentSafe(c: char) {
    IsAlnum(c) || c == '-' || c == '_' || c == '.' || c == '!' || c == '~' || c == '*' || c == '\'' || c == '(' || c == ')'
  }

  /** The characters the form serializer leaves as they are. */
  predicate FormSafe(c: char) {
    IsAlnum(c) || c == '*' || c == '-' || c == '.' || c == '_'
  }

  /** `encodeURIComponent(s)`: every other character becomes the `%XX`
      escapes of its UTF-8 bytes, so no `/`, `?`, `#`, `&` or `=` remains. */
  function EncodeComponent(s: string): (r: string)
    ensures forall k :: 0 <= k < |r| ==> r[k] == '%' || ComponentSafe(r[k])
  {
    if |s| == 0 then ""
    else
      var head := if ComponentSafe(s[0]) then [s[0]] else PercentBytes(Utf8.CharBytes(s[0]));
      head + EncodeComponent(s[1..])
  }

  /** The form serializer on one name or value: space becomes `+`. */
  function FormEncode(s: string): (r: string)
    ensures forall k :: 0 <= k < |r| ==> r[k] == '%' || r[k] == '+' || FormSafe(r[k])
  {
    if |s| == 0 then ""
    else
      var head :=
        if s[0] == ' ' then "+"
        else if FormSafe(s[0]) then [s[0]]
        else PercentBytes(Utf8.CharBytes(s[0]));
      head + FormEncode(s[1..])
  }

  // ---------------------------------------------------------------------
  // Decoders

  function Prepend(bs: seq<Utf8.Byte>, o: Option<seq<Utf8.Byte>>): Option<seq<Utf8.Byte>> {
    match o
    case None => None
    case Some(rest) => Some(bs + rest)
  }

  /** Percent-decoding to bytes; with `plusIsSpace`, `+` stands for a space
      as in form data. A `%` not followed by two hex digits fails, as
      `decodeURIComponent` throws `URIError` there. */
  function PercentDecode(s: string, plusIsSpace: bool): Option<seq<Utf8.Byte>>
    decreases |s|
  {
    if |s| == 0 then Some([])
    else if s[0] == '%' then
      if |s| >= 3 && HexValue(s[1]).Some? && HexValue(s[2]).Some? then
        Prepend([HexValue(s[1]).value * 16 + HexValue(s[2]).value], PercentDecode(s[3..], plusIsSpace))
      else None
    else if s[0] == '+' && plusIsSpace then Prepend([0x20], PercentDecode(s[1..], plusIsSpace))
    else Prepend(Utf8.CharBytes(s[0]), PercentDecode(s[1..], plusIsSpace))
  }

  /** `decodeURIComponent(s)`, `None` where it would throw. */
  function DecodeComponent(s: string): Option<string> {
    match PercentDecode(s, false)
    case None => None
    case Some(bs) => Utf8.Decode(bs)
  }

  function FormDecode(s: string): Option<string> {
    match PercentDecode(s, true)
    case None => None
    case Some(bs) => Utf8.Decode(bs)
  }

  lemma {:induction false} PercentDecodeEscapes(bs: seq<Utf8.Byte>, rest: string, plusIsSpace: bool)
    ensures PercentDecode(PercentBytes(bs) + rest, plusIsSpace) == Prepend(bs, PercentDecode(rest, plusIsSpace))
  {
    if |bs| == 0 {
      assert PercentBytes(bs) + rest == rest;
      PrependEmpty(PercentDecode(rest, plusIsSpace));
    } else {
      var tail := PercentBytes(bs[1..]) + rest;
      PercentBytesCons(bs, rest);
      PercentDecodeEscape(bs[0], tail, plusIsSpace);
      PercentDecodeEscapes(bs[1..], rest, plusIsSpace);
      PrependTwice(bs, PercentDecode(rest, plusIsSpace));
    }
  }

  lemma PrependEmpty(o: Option<seq<Utf8.Byte>>)
    ensures Prepend([], o) == o
  {
    if o.Some? { assert [] + o.value == o.value; }
  }

  lemma PrependTwice(bs: seq<Utf8.Byte>, o: Option<seq<Utf8.Byte>>)
    requires |bs| > 0
    ensures Prepend([bs[0]], Prepend(bs[1..], o)) == Prepend(bs, o)
  {
    if o.Some? { assert [bs[0]] + (bs[1..] + o.value) == bs + o.value; }
  }

  lemma PercentBytesCons(bs: seq<Utf8.Byte>, rest: string)
    requires |bs| > 0
    ensures PercentBytes(bs) + rest == ['%', HexDigit(bs[0] / 16), HexDigit(bs[0] % 16)] + (PercentBytes(bs[1..]) + rest)
  {
  }

  lemma PercentDecodeEscape(b: Utf8.Byte, tail: string, plusIsSpace: bool)
    ensures PercentDecode(['%', HexDigit(b / 16), HexDigit(b % 16)] + tail, plusIsSpace)
         == Prepend([b], PercentDecode(tail, plusIsSpace))
  {
    var s := ['%', HexDigit(b / 16), HexDigit(b % 16)] + tail;
    assert s[3..] == tail;
    assert HexValue(s[1]) == Some(b / 16) && HexValue(s[2]) == Some(b % 16);
  }

  /** A character copied as itself decodes to its own bytes. */
  lemma PercentDecodeLiteral(c: char, rest: string, plusIsSpace: bool)
    requires c != '%' && !(c == '+' && plusIsSpace)
    ensures PercentDecode([c] + rest, plusIsSpace) == Prepend(Utf8.CharBytes(c), PercentDecode(rest, plusIsSpace))
  {
    assert ([c] + rest)[1..] == rest;
  }

  lemma {:induction false} PercentDecodeComponent(s: string)
    ensures PercentDecode(EncodeComponent(s), false) == Some(Utf8.Encode(s))
    decreases |s|
  {
    if |s| > 0 {
      var tail := EncodeComponent(s[1..]);
      PercentDecodeComponent(s[1..]);
      if ComponentSafe(s[0]) {
        PercentDecodeLiteral(s[0], tail, false);
      } else {
        PercentDecodeEscapes(Utf8.CharBytes(s[0]), tail, false);
      }
    }
  }

  /** `decodeURIComponent(encodeURIComponent(s)) == s`. */
  lemma ComponentRoundTrip(s: string)
    ensures DecodeComponent(EncodeComponent(s)) == Some(s)
  {
    PercentDecodeComponent(s);
    Utf8.DecodeEncode(s);
  }

  lemma {:induction false} PercentDecodeForm(s: string)
    ensures PercentDecode(FormEncode(s), true) == Some(Utf8.Encode(s))
    decreases |s|
  {
    if |s| > 0 {
      var tail := FormEncode(s[1..]);
      PercentDecodeForm(s[1..]);
      if s[0] == ' ' {
        assert ("+" + tail)[1..] == tail;
      } else if FormSafe(s[0]) {
        PercentDecodeLiteral(s[0], tail, true);
      } else {
        PercentDecodeEscapes(Utf8.CharBytes(s[0]), tail, true);
      }
    }
  }

  lemma FormRoundTrip(s: string)
    ensures FormDecode(FormEncode(s)) == Some(s)
  {
    PercentDecodeForm(s);
    Utf8.DecodeEncode(s);
  }

  // ---------------------------------------------------------------------
  // Query strings

  type Pair = (string, string)

  function FormPair(p: Pair): (r: string)
    ensures '&' !in r && '?' !in r
  {
    FormEncode(p.0) + "=" + FormEncode(p.1)
  }

  function FormPieces(ps: seq<Pair>): (r: seq<string>)
    ensures |r| == |ps|
    ensures forall k :: 0 <= k < |r| ==> r[k] == FormPair(ps[k])
  {
    if |ps| == 0 then [] else [FormPair(ps[0])] + FormPieces(ps[1..])
  }

  /** `URLSearchParams.toString()`: encoded pairs joined by `&`. */
  function FormSerialize(ps: seq<Pair>): (r: string)
    ensures '?' !in r
  {
    var pieces := FormPieces(ps);
    JoinWithout(pieces, '&', '?');
    Join(pieces, '&')
  }

  lemma {:induction false} JoinWithout(parts: seq<string>, sep: char, c: char)
    requires c != sep
    requires forall k :: 0 <= k < |parts| ==> c !in parts[k]
    ensures c !in Join(parts, sep)
  {
    if |parts| > 1 {
      JoinWithout(parts[1..], sep, c);
    }
  }

  /** One `name=value` piece; a piece without `=` is a name with an empty value. */
  function ParsePiece(piece: string): Option<Pair> {
    var (name, value) := match IndexOf(piece, '=')
      case None => (piece, "")
      case Some(i) => (piece[..i], piece[i + 1..]);
    match (FormDecode(name), FormDecode(value))
    case (Some(n), Some(v)) => Some((n, v))
    case _ => None
  }

  /** The form parser over `&`-separated pieces; empty pieces are skipped. */
  function ParsePieces(pieces: seq<string>): Option<seq<Pair>> {
    if |pieces| == 0 then Some([])
    else
      match ParsePieces(pieces[1..])
      case None => None
      case Some(rest) =>
        if pieces[0] == "" then Some(rest)
        else match ParsePiece(pieces[0])
          case None => None
          case Some(p) => Some([p] + rest)
  }

  function FormParse(s: string): Option<seq<Pair>> {
    ParsePieces(Split(s, '&'))
  }

  lemma ParseFormPair(p: Pair)
    ensures ParsePiece(FormPair(p)) == Some(p)
  {
    var name := FormEncode(p.0);
    var piece := FormPair(p);
    assert piece[..|name|] == name;
    IndexOfUnique(piece, '=', |name|);
    assert piece[|name| + 1..] == FormEncode(p.1);
    FormRoundTrip(p.0);
    FormRoundTrip(p.1);
  }

  lemma {:induction false} ParseFormPieces(ps: seq<Pair>)
    ensures ParsePieces(FormPieces(ps)) == Some(ps)
  {
    if |ps| > 0 {
      var pieces := FormPieces(ps);
      assert pieces[0] == FormPair(ps[0]) && pieces[1..] == FormPieces(ps[1..]);
      ParseFormPieces(ps[1..]);
      ParseFormPair(ps[0]);
      assert pieces[0] != "" by { assert FormPair(ps[0])[|FormEncode(ps[0].0)|] == '='; }
      assert ParsePieces(pieces) == Some([ps[0]] + ps[1..]);
      assert [ps[0]] + ps[1..] == ps;
    }
  }

  /** Parsing a serialised query gives back its pairs, names and values
      included, in order. */
  lemma FormSerializeRoundTrip(ps: seq<Pair>)
    ensures FormParse(FormSerialize(ps)) == Some(ps)
  {
    var pieces := FormPieces(ps);
    if |ps| == 0 {
      assert Split("", '&') == [""];
    } else {
      SplitJoin(pieces, '&');
      ParseFormPieces(ps);
    }
  }

  // ---------------------------------------------------------------------
  // URLs

  datatype Url = Url(location: string, query: seq<Pair>)

  predicate IsAlpha(c: char) {
    ('a' <= c <= 'z') || ('A' <= c <= 'Z')
  }

  predicate SchemeChar(c: char) {
    IsAlnum(c) || c == '+' || c == '-' || c == '.'
  }

  /** An absolute URL starts with a scheme: a letter, then letters, digits,
      `+`, `-` or `.`, then `:`. */
  predicate HasScheme(s: string) {
    match IndexOf(s, ':')
    case None => false
    case Some(i) => i >= 1 && IsAlpha(s[0]) && forall k :: 0 <= k < i ==> SchemeChar(s[k])
  }

  /** A location a `Url` value may hold: absolute, with no query part. */
  predicate WellFormedLocation(location: string) {
    HasScheme(location) && '?' !in location
  }

  /** `new URL(s)`: the text before the first `?` is the location, the rest
      is parsed as form data; `None` where the constructor throws. */
  function Parse(s: string): Option<Url> {
    if !HasScheme(s) then None
    else match IndexOf(s, '?')
      case None => Some(Url(s, []))
      case Some(j) =>
        match FormParse(s[j + 1..])
        case None => None
        case Some(q) => Some(Url(s[..j], q))
  }

  /** `url.toString()`. */
  function Serialize(u: Url): string {
    if |u.query| == 0 then u.location else u.location + "?" + FormSerialize(u.query)
  }

  /** `url.searchParams.append(name, value)`: one pair added at the end. */
  function AppendParam(u: Url, name: string, value: string): (r: Url)
    ensures r.location == u.location
    ensures |r.query| == |u.query| + 1 && r.query[..|u.query|] == u.query
    ensures r.query[|u.query|] == (name, value)
  {
    u.(query := u.query + [(name, value)])
  }

  lemma HasSchemePrefix(location: string, s: string)
    requires HasScheme(location)
    requires |location| <= |s| && s[..|location|] == location
    ensures HasScheme(s)
  {
    var i := IndexOf(location, ':').value;
    assert s[..i] == location[..i];
    IndexOfUnique(s, ':', i);
  }

  /** A parsed URL's location is absolute and carries no query. */
  lemma ParseWellFormed(s: string)
    requires Parse(s).Some?
    ensures WellFormedLocation(Parse(s).value.location)
  {
    match IndexOf(s, '?')
    case None =>
    case Some(j) =>
      var i := IndexOf(s, ':').value;
      assert !SchemeChar('?');
      assert i < j;
      assert s[..j][..i] == s[..i];
      IndexOfUnique(s[..j], ':', i);
  }

  /** A serialised URL parses back to the same location and query pairs. */
  lemma UrlRoundTrip(u: Url)
    requires WellFormedLocation(u.location)
    ensures Parse(Serialize(u)) == Some(u)
  {
    if |u.query| > 0 {
      var q := FormSerialize(u.query);
      var s := Serialize(u);
      var j := |u.location|;
      assert s[..j] == u.location;
      assert s[j] == '?';
      assert s[j + 1..] == q;
      HasSchemePrefix(u.location, s);
      IndexOfUnique(s, '?', j);
      FormSerializeRoundTrip(u.query);
    }
  }
}
