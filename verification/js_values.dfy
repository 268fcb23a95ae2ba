/**
  The handful of JavaScript value semantics the modelled code relies on:
  truthiness, `typeof`, and `String.prototype.toUpperCase`.
 */
module JsValues {
  import opened Wrappers

  /** A JavaScript value. Numbers are modelled as integers; an object
      (a `Date`, say) is known only by an opaque identity. */
  datatype JsValue =
    | Undefined
    | Null
    | Bool(b: bool)
    | Number(n: int)
    | Str(s: string)
    | Object(identity: nat)

  /** `!!v`: the falsy values are `undefined`, `null`, `false`, `0` and `""`. */
  predicate Truthy(v: JsValue) {
    match v
    case Undefined => false
    case Null => false
    case Bool(b) => b
    case Number(n) => n != 0
    case Str(s) => s != ""
    case Object(_) => true
  }

  /** The `typeof` operator. */
  function TypeOf(v: JsValue): (r: string)
    ensures r == "number" <==> v.Number?
    ensures r == "string" <==> v.Str?
  {
    match v
    case Undefined => "undefined"
    case Null => "object"
    case Bool(_) => "boolean"
    case Number(_) => "number"
    case Str(_) => "string"
    case Object(_) => "object"
  }

  /** Truthiness of a query-string parameter, which Express gives as
      `undefined` or a string. */
  predicate Given(p: Option<string>) {
    p.Some? && Truthy(Str(p.value))
  }

  /** Upper-casing of one character: the ASCII letters, plus the two
      non-ASCII letters whose upper case is an ASCII letter
      (U+0131 dotless i and U+017F long s). */
  function UpperChar(c: char): char {
    if 'a' <= c <= 'z' then (c as int - 32) as char
    else if c == 'ı' then 'I'
    else if c == 'ſ' then 'S'
    else c
  }

  /** `s.toUpperCase()`, character by character. */
  function ToUpperCase(s: string): (r: string)
    ensures |r| == |s|
    ensures forall i :: 0 <= i < |s| ==> r[i] == UpperChar(s[i])
  {
    if s == [] then [] else [UpperChar(s[0])] + ToUpperCase(s[1..])
  }

  /** Upper-casing is idempotent, so an upper-cased token is its own upper case. */
  lemma {:induction false} ToUpperCaseIdempotent(s: string)
    ensures ToUpperCase(ToUpperCase(s)) == ToUpperCase(s)
  {
    if s != [] {
      ToUpperCaseIdempotent(s[1..]);
      assert ToUpperCase(s)[1..] == ToUpperCase(s[1..]);
    }
  }
}
