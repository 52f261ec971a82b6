/** String and sequence helpers with JavaScript's meaning: `indexOf`,
    `startsWith`, `split` and `join` on a one-character separator, and
    `Array.prototype.find`. */
module Text {
  import opened Wrappers

  /** Position of the first `c` in `s`, if any. */
  function IndexOf(s: string, c: char): (r: Option<nat>)
    ensures r.Some? ==> r.value < |s| && s[r.value] == c && c !in s[..r.value]
    ensures r.None? <==> c !in s
  {
    if |s| == 0 then None
    else if s[0] == c then Some(0)
    else match IndexOf(s[1..], c)
      case None => None
      case Some(i) =>
        assert s[..i + 1] == [s[0]] + s[1..][..i];
        Some(i + 1)
  }

  /** The first occurrence is the only index before which `c` does not occur. */
  lemma IndexOfUnique(s: string, c: char, i: nat)
    requires i < |s| && s[i] == c && c !in s[..i]
    ensures IndexOf(s, c) == Some(i)
  {
  }

  predicate StartsWith(s: string, prefix: string) {
    |prefix| <= |s| && s[..|prefix|] == prefix
  }

  /** `s.split(sep)`: the maximal separator-free pieces of `s`, in order.
      Like JavaScript, the empty string splits into one empty piece. */
  function Split(s: string, sep: char): (r: seq<string>)
    ensures |r| >= 1
    ensures forall k :: 0 <= k < |r| ==> sep !in r[k]
    decreases |s|
  {
    match IndexOf(s, sep)
    case None => [s]
    case Some(i) => [s[..i]] + Split(s[i + 1..], sep)
  }

  /** `parts.join(sep)`; an empty array joins to the empty string. */
  function Join(parts: seq<string>, sep: char): string
  {
    if |parts| == 0 then ""
    else if |parts| == 1 then parts[0]
    else parts[0] + [sep] + Join(parts[1..], sep)
  }

  /** Joining the pieces of a split gives the original string back. */
  lemma {:induction false} JoinSplit(s: string, sep: char)
    ensures Join(Split(s, sep), sep) == s
    decreases |s|
  {
    match IndexOf(s, sep)
    case None =>
    case Some(i) =>
      var rest := Split(s[i + 1..], sep);
      JoinSplit(s[i + 1..], sep);
      assert Split(s, sep) == [s[..i]] + rest;
      assert ([s[..i]] + rest)[1..] == rest;
      assert Join([s[..i]] + rest, sep) == s[..i] + [sep] + Join(rest, sep);
      assert s == s[..i] + [sep] + s[i + 1..];
  }

  /** Splitting a join of separator-free pieces gives the pieces back. */
  lemma {:induction false} SplitJoin(parts: seq<string>, sep: char)
    requires |parts| >= 1
    requires forall k :: 0 <= k < |parts| ==> sep !in parts[k]
    ensures Split(Join(parts, sep), sep) == parts
  {
    if |parts| == 1 {
      assert sep !in parts[0];
    } else {
      var s := Join(parts, sep);
      var n := |parts[0]|;
      assert s[..n] == parts[0];
      IndexOfUnique(s, sep, n);
      assert s[n + 1..] == Join(parts[1..], sep);
      SplitJoin(parts[1..], sep);
    }
  }

  /** A string without the separator splits into itself alone. */
  lemma SplitWithout(s: string, sep: char)
    requires sep !in s
    ensures Split(s, sep) == [s]
  {
  }

  lemma PrefixCancel(p: string, a: string, b: string)
    ensures p + a == p + b <==> a == b
  {
    if p + a == p + b {
      assert a == (p + a)[|p|..] && b == (p + b)[|p|..];
    }
  }

  lemma StartsWithAfter(p: string, rest: string, x: string)
    ensures StartsWith(p + rest, p + x) <==> StartsWith(rest, x)
  {
    if |x| <= |rest| {
      assert (p + rest)[..|p + x|] == p + rest[..|x|];
      PrefixCancel(p, rest[..|x|], x);
    }
  }

  /** A string with the separator splits into its text before the first
      separator, followed by the split of the rest. */
  lemma SplitWith(s: string, sep: char, i: nat)
    requires i < |s| && s[i] == sep && sep !in s[..i]
    ensures Split(s, sep) == [s[..i]] + Split(s[i + 1..], sep)
  {
    IndexOfUnique(s, sep, i);
  }

  /** The first piece of a split is the longest separator-free prefix: it is
      followed by the separator or by the end of the string. */
  lemma SplitHead(s: string, sep: char)
    ensures var h := Split(s, sep)[0];
      |h| <= |s| && s[..|h|] == h && (|h| < |s| ==> s[|h|] == sep)
  {
  }

  /** The first piece of a split is `k` exactly when `k` is separator-free and
      `s` is `k`, alone or followed by the separator. */
  lemma SplitHeadIs(s: string, sep: char, k: string)
    ensures Split(s, sep)[0] == k <==> sep !in k && (s == k || StartsWith(s, k + [sep]))
  {
    SplitHeadShape(s, sep);
    if sep !in k && (s == k || StartsWith(s, k + [sep])) {
      SplitHeadOf(s, sep, k);
    }
  }

  lemma SplitHeadShape(s: string, sep: char)
    ensures var h := Split(s, sep)[0]; s == h || StartsWith(s, h + [sep])
  {
    var h := Split(s, sep)[0];
    SplitHead(s, sep);
    if |h| < |s| {
      assert s[..|h| + 1] == h + [sep];
    }
  }

  lemma SplitHeadOf(s: string, sep: char, k: string)
    requires sep !in k && (s == k || StartsWith(s, k + [sep]))
    ensures Split(s, sep)[0] == k
  {
    if s == k {
      SplitWithout(s, sep);
    } else {
      assert s[..|k|] == k && s[|k|] == sep;
      SplitWith(s, sep, |k|);
    }
  }

  /** A separator-free prefix splits off as the first piece. */
  lemma SplitPrefix(a: string, sep: char, b: string)
    requires sep !in a
    ensures Split(a + [sep] + b, sep) == [a] + Split(b, sep)
  {
    var s := a + [sep] + b;
    assert s[..|a|] == a && s[|a|] == sep && s[|a| + 1..] == b;
    SplitWith(s, sep, |a|);
  }

  /** `Array.prototype.find` by index: the first element satisfying `p`. */
  function FindFirst<T>(s: seq<T>, p: T -> bool): (r: Option<nat>)
    ensures r.Some? ==> r.value < |s| && p(s[r.value])
    ensures r.Some? ==> forall j :: 0 <= j < r.value ==> !p(s[j])
    ensures r.None? <==> forall j :: 0 <= j < |s| ==> !p(s[j])
  {
    if |s| == 0 then None
    else if p(s[0]) then Some(0)
    else match FindFirst(s[1..], p)
      case None => None
      case Some(i) => Some(i + 1)
  }
}
