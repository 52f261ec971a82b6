/** The slice of JavaScript value semantics the broker relies on: property
    values that are absent, `null` or a string, truthiness, string
    coercion in template literals and concatenation, `a || b`, and
    `toUpperCase`. */
module Js {

  datatype Value = Undefined | Null | Str(s: string)

  /** A plain object with string-keyed properties. */
  type Object = map<string, Value>

  /** Only a non-empty string is truthy; `undefined`, `null` and `""` are not. */
  predicate Truthy(v: Value) {
    v.Str? && v.s != ""
  }

  /** `String(v)`, as used by `+` with a string and by template literals. */
  function ToStr(v: Value): string {
    match v
    case Undefined => "undefined"
    case Null => "null"
    case Str(s) => s
  }

  /** `a || b`. */
  function Or(a: Value, b: Value): Value {
    if Truthy(a) then a else b
  }

  /** Property read `o.k`: an absent property reads as `undefined`. */
  function Get(o: Object, k: string): Value {
    if k in o then o[k] else Undefined
  }

  /** `process.env[k]`: environment variables are strings or absent. */
  function EnvGet(env: map<string, string>, k: string): Value {
    if k in env then Str(env[k]) else Undefined
  }

  function UpperChar(c: char): char {
    if 'a' <= c <= 'z' then (c as int - 32) as char else c
  }

  /** `s.toUpperCase()` on the ASCII letters. */
  function Upper(s: string): (r: string)
    ensures |r| == |s|
    ensures forall k :: 0 <= k < |s| ==> r[k] == UpperChar(s[k])
  {
    if |s| == 0 then "" else [UpperChar(s[0])] + Upper(s[1..])
  }
}
