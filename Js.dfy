/** The parts of JavaScript's value semantics that the dashboard's logic depends on:
    JSON-shaped values, truthiness, conversion to a string, property lookup,
    `Array.prototype.includes` and `String.prototype.includes`. */
module Js {

  datatype Option<+T> = None | Some(value: T)

  /** A JSON-shaped JavaScript value. Numbers are integers; an object keeps its
      bindings in source order. */
  datatype JsValue =
    | Null
    | Bool(b: bool)
    | Num(n: int)
    | Str(s: string)
    | Arr(items: seq<JsValue>)
    | Obj(fields: seq<(string, JsValue)>)

  /** JavaScript truthiness: `null`, `false`, `0` and `''` are falsy, every array
      and every object is truthy. */
  predicate Truthy(v: JsValue) {
    match v
    case Null => false
    case Bool(b) => b
    case Num(n) => n != 0
    case Str(s) => s != ""
    case _ => true
  }

  /** Truthiness of a value that may be `undefined` (`None`). */
  predicate Present(v: Option<JsValue>) {
    v.Some? && Truthy(v.value)
  }

  /** The value bound to `key` in a list of bindings; the last binding wins, as
      when `JSON.parse` meets a repeated key. */
  function LastBinding(fields: seq<(string, JsValue)>, key: string): (r: Option<JsValue>)
    ensures r.Some? <==> exists i :: 0 <= i < |fields| && fields[i].0 == key
    ensures r.Some? ==> exists i :: 0 <= i < |fields| && fields[i] == (key, r.value) &&
                                    forall j :: i < j < |fields| ==> fields[j].0 != key
  {
    if |fields| == 0 then None
    else if fields[|fields| - 1].0 == key then Some(fields[|fields| - 1].1)
    else LastBinding(fields[..|fields| - 1], key)
  }

  /** `v?.key` (and `v.key` on a non-null value): only an object has own
      properties of this kind; on anything else the lookup gives `undefined`. */
  function Prop(v: JsValue, key: string): Option<JsValue> {
    match v
    case Obj(fields) => LastBinding(fields, key)
    case _ => None
  }

  function DigitChar(d: nat): (c: char)
    requires d < 10
    ensures '0' <= c <= '9'
  {
    "0123456789"[d]
  }

  predicate IsDigit(c: char) {
    '0' <= c <= '9'
  }

  /** The decimal numeral of `n`, as `String(n)` writes it. */
  function NatText(n: nat): (r: string)
    ensures |r| >= 1
    ensures forall i :: 0 <= i < |r| ==> IsDigit(r[i])
    ensures r[0] == '0' ==> n == 0
    decreases n
  {
    if n < 10 then [DigitChar(n)] else NatText(n / 10) + [DigitChar(n % 10)]
  }

  /** The number a string of decimal digits denotes. */
  function DecimalValue(s: string): nat
    requires forall i :: 0 <= i < |s| ==> IsDigit(s[i])
  {
    if |s| == 0 then 0
    else
      assert IsDigit(s[|s| - 1]);
      10 * DecimalValue(s[..|s| - 1]) + (s[|s| - 1] as int - '0' as int)
  }

  /** Reading the numeral back gives the number: `NatText` loses nothing. */
  lemma {:induction false} NatTextRoundTrip(n: nat)
    ensures DecimalValue(NatText(n)) == n
  {
    if n >= 10 {
      NatTextRoundTrip(n / 10);
      var t := NatText(n);
      assert t[..|t| - 1] == NatText(n / 10);
    }
  }

  /** Distinct numbers have distinct numerals. */
  lemma NatTextInjective(m: nat, n: nat)
    requires NatText(m) == NatText(n)
    ensures m == n
  {
    NatTextRoundTrip(m);
    NatTextRoundTrip(n);
  }

  /** `String(n)` for an integer. */
  function IntText(n: int): (r: string)
    ensures |r| >= 1
    ensures n >= 0 ==> r == NatText(n)
    ensures n < 0 ==> r == "-" + NatText(-n)
  {
    if n < 0 then "-" + NatText(-n) else NatText(n)
  }

  /** `String(v)`: the text a value becomes in a template literal, in string
      concatenation or as the argument of `new Error(...)`. An array is joined
      with commas, a `null` element becoming the empty string. */
  function Text(v: JsValue): string
    decreases v, 1
  {
    match v
    case Null => "null"
    case Bool(b) => if b then "true" else "false"
    case Num(n) => IntText(n)
    case Str(s) => s
    case Arr(items) => JoinText(items)
    case Obj(_) => "[object Object]"
  }

  function JoinText(items: seq<JsValue>): string
    decreases items, 0
  {
    if |items| == 0 then ""
    else
      var head := if items[0] == Null then "" else Text(items[0]);
      if |items| == 1 then head else head + "," + JoinText(items[1..])
  }

  /** `Array.prototype.includes`, on values compared with `===`. */
  function Includes<T(==)>(xs: seq<T>, x: T): (r: bool)
    ensures r <==> x in xs
  {
    if |xs| == 0 then false else xs[0] == x || Includes(xs[1..], x)
  }

  predicate OccursAt(s: string, sub: string, i: int) {
    0 <= i && i + |sub| <= |s| && s[i..i + |sub|] == sub
  }

  /** `s.includes(sub)`: `sub` occurs in `s` at some position. */
  predicate Contains(s: string, sub: string) {
    exists i :: 0 <= i <= |s| - |sub| && OccursAt(s, sub, i)
  }
}
