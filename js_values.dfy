/**
 * The few JavaScript value semantics the request handlers depend on:
 * truthiness (`if (!x)`, `x || d`, `x && y`), `toString()`, `parseInt`
 * in radix 10, and `==` against a non-numeric string literal.
 * Numbers are modelled as integers.
 */
module JsValues {
  import opened Wrappers

  datatype Value =
    | Undefined
    | Null
    | Bool(b: bool)
    | Num(n: int)
    | Str(s: string)
    | Arr(elems: seq<Value>)
    | Obj

  /** JavaScript truthiness: undefined, null, false, 0 and "" are falsy. */
  predicate Truthy(v: Value) {
    match v
    case Undefined => false
    case Null => false
    case Bool(b) => b
    case Num(n) => n != 0
    case Str(s) => s != ""
    case Arr(_) => true
    case Obj => true
  }

  /** `v || fallback` */
  function Or(v: Value, fallback: Value): (r: Value)
    ensures Truthy(v) ==> r == v
    ensures !Truthy(v) ==> r == fallback
  {
    if Truthy(v) then v else fallback
  }

  /** `v && v.toString()`: nothing when v is falsy, else its string form. */
  function AndToString(v: Value): (r: Option<string>)
    ensures r.Some? <==> Truthy(v)
  {
    if Truthy(v) then Some(ToStr(v)) else None
  }

  predicate IsDigit(c: char) {
    '0' <= c <= '9'
  }

  /**
   * The characters `parseInt` skips before the sign: white space (tab,
   * vertical tab, form feed, space, no-break space, byte order mark and the
   * other space separators) and line terminators.
   */
  predicate IsJsWhiteSpace(c: char) {
    || c == '\t' || c == '\U{000B}' || c == '\U{000C}' || c == ' ' || c == '\U{00A0}' || c == '\U{FEFF}'
    || c == '\n' || c == '\r' || c == '\U{2028}' || c == '\U{2029}'
    || c == '\U{1680}' || ('\U{2000}' <= c <= '\U{200A}') || c == '\U{202F}' || c == '\U{205F}' || c == '\U{3000}'
  }

  function DigitChar(d: nat): (c: char)
    requires d < 10
    ensures IsDigit(c) && (c as int) - ('0' as int) == d
  {
    ('0' as int + d) as char
  }

  /** Decimal digits of a natural number, most significant first. */
  function NatToDecimal(n: nat): string
    decreases n
  {
    if n < 10 then [DigitChar(n)] else NatToDecimal(n / 10) + [DigitChar(n % 10)]
  }

  /** Magnitude from which JavaScript's `String(n)` uses exponent form. */
  const PlainDecimalBound: int := 1_000_000_000_000_000_000_000

  /** `String(n)` for an integral number below PlainDecimalBound in magnitude. */
  function IntToDecimal(i: int): string {
    if i < 0 then "-" + NatToDecimal(-i) else NatToDecimal(i)
  }

  /** `v.toString()` (for undefined and null: what `String(v)` gives). */
  function ToStr(v: Value): string
    decreases v, 1
  {
    match v
    case Undefined => "undefined"
    case Null => "null"
    case Bool(b) => if b then "true" else "false"
    case Num(n) => IntToDecimal(n)
    case Str(s) => s
    case Arr(elems) => Join(elems)
    case Obj => "[object Object]"
  }

  /** Array.prototype.toString: elements joined by ",", null and undefined as "". */
  function Join(elems: seq<Value>): string
    decreases elems, 0
  {
    if elems == [] then ""
    else
      var last := elems[|elems| - 1];
      var text := if last.Undefined? || last.Null? then "" else ToStr(last);
      if |elems| == 1 then text else Join(elems[..|elems| - 1]) + "," + text
  }

  /** Longest prefix of s made of decimal digits. */
  function DigitPrefix(s: string): (d: string)
    ensures |d| <= |s| && d == s[..|d|]
    ensures forall i :: 0 <= i < |d| ==> IsDigit(d[i])
    ensures |d| < |s| ==> !IsDigit(s[|d|])
  {
    if s == [] || !IsDigit(s[0]) then [] else [s[0]] + DigitPrefix(s[1..])
  }

  /** Value of a string of decimal digits. */
  function DigitsValue(d: string): nat
    requires forall i :: 0 <= i < |d| ==> IsDigit(d[i])
  {
    if d == [] then 0
    else
      assert IsDigit(d[|d| - 1]);
      10 * DigitsValue(d[..|d| - 1]) + ((d[|d| - 1] as int) - ('0' as int))
  }

  /**
   * `parseInt(v)`: the string form of v, an optional sign, then the longest
   * run of decimal digits; None stands for NaN (no digit at all).
   */
  function ParseInt(v: Value): (r: Option<int>) {
    var s := ToStr(v);
    var signed := |s| > 0 && (s[0] == '-' || s[0] == '+');
    var digits := DigitPrefix(if signed then s[1..] else s);
    var magnitude: int := if digits == [] then 0 else DigitsValue(digits);
    if digits == [] then None
    else if signed && s[0] == '-' then Some(-magnitude)
    else Some(magnitude)
  }

  /**
   * `v == name` for a literal that is not a numeric string: only a string,
   * or an object whose string form is name (an array), can be loosely equal to it.
   */
  predicate LooselyEquals(v: Value, name: string)
    requires DigitPrefix(name) == [] && name != "" && name[0] != '-' && name[0] != '+'
  {
    match v
    case Str(s) => s == name
    case Arr(_) => ToStr(v) == name
    case Obj => ToStr(v) == name
    case _ => false
  }

  lemma {:induction false} NatToDecimalDigits(n: nat)
    ensures NatToDecimal(n) != []
    ensures forall i :: 0 <= i < |NatToDecimal(n)| ==> IsDigit(NatToDecimal(n)[i])
    ensures DigitsValue(NatToDecimal(n)) == n
    decreases n
  {
    if n >= 10 {
      NatToDecimalDigits(n / 10);
      var d := NatToDecimal(n);
      assert d[..|d| - 1] == NatToDecimal(n / 10);
    }
  }

  lemma {:induction false} DigitPrefixOfDigits(d: string)
    requires forall i :: 0 <= i < |d| ==> IsDigit(d[i])
    ensures DigitPrefix(d) == d
  {
    if d != [] {
      DigitPrefixOfDigits(d[1..]);
    }
  }

  /**
   * `parseInt` reads back every integral number JavaScript writes in plain
   * decimal: parseInt(String(n)) == n. From 10^21 up, `String` switches to
   * exponent form ("1e+21"), which this model does not produce.
   */
  lemma ParseIntOfNumber(n: int)
    requires -PlainDecimalBound < n < PlainDecimalBound
    ensures ParseInt(Num(n)) == Some(n)
  {
    var m: nat := if n < 0 then -n else n;
    NatToDecimalDigits(m);
    DigitPrefixOfDigits(NatToDecimal(m));
    var s := ToStr(Num(n));
    if n < 0 {
      assert s == "-" + NatToDecimal(m);
      assert s[1..] == NatToDecimal(m);
    } else {
      assert s == NatToDecimal(m);
      assert s[0] != '-' && s[0] != '+';
    }
  }
}
