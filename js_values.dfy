/**
 * The JavaScript values that rows, payloads and server replies are made of, with the
 * two JavaScript conversions the model relies on: truthiness and the string form a
 * value takes when it is used as an object key.
 */
module JsValues {

  /** A flat JSON scalar. Nested objects are not modelled (rows are flat). */
  datatype Value = Str(s: string) | Num(n: int) | Bool(b: bool) | Null

  /** A row, payload or entity: field name -> value. */
  type Row = map<string, Value>

  /** JavaScript falsiness restricted to the scalars above. */
  predicate Falsy(v: Value) {
    v == Str("") || v == Num(0) || v == Bool(false) || v == Null
  }

  function DigitChar(d: nat): (c: char)
    requires d < 10
    ensures '0' <= c <= '9'
  {
    "0123456789"[d]
  }

  /** The decimal text of a natural number, as `String(n)` gives it. */
  function NatToString(n: nat): (s: string)
    ensures |s| >= 1
    ensures forall i :: 0 <= i < |s| ==> '0' <= s[i] <= '9'
    decreases n
  {
    if n < 10 then [DigitChar(n)] else NatToString(n / 10) + [DigitChar(n % 10)]
  }

  function IntToString(n: int): (s: string)
    ensures |s| >= 1
  {
    if n < 0 then "-" + NatToString(-n) else NatToString(n)
  }

  /** The number a text of decimal digits denotes. */
  function DigitsValue(s: string): nat
    requires forall i :: 0 <= i < |s| ==> '0' <= s[i] <= '9'
  {
    if |s| == 0 then 0 else DigitsValue(s[..|s| - 1]) * 10 + (s[|s| - 1] as int - '0' as int)
  }

  /**
   * An array index: the canonical decimal text of an integer below 2^32 - 1. An ordinary
   * object lists such keys first, in ascending numeric order, and its other keys after
   * them in the order they were added.
   */
  predicate IsIndexKey(k: string) {
    (forall i :: 0 <= i < |k| ==> '0' <= k[i] <= '9')
    && DigitsValue(k) < 0xFFFF_FFFF && k == NatToString(DigitsValue(k))
  }

  /** `String(v)`: the text a value becomes when it indexes an object or is concatenated. */
  function KeyOf(v: Value): string {
    match v
    case Str(s) => s
    case Num(n) => IntToString(n)
    case Bool(b) => if b then "true" else "false"
    case Null => "null"
  }

}
