/**
 * The dynamic values that flow through forms, payloads and JSON rows, with
 * the JavaScript conversions the components rely on: truthiness (`||`,
 * `if (x)`), `Number(s)`, `parseInt(s)` and loose equality `==`.
 */
module JsValues {
  import opened Wrappers
  import opened Strings
  import Base64

  /**
   * A scalar value. `Null` stands for both `null` and `undefined`; `Bytes`
   * is a Python `bytes` value on the server side.
   */
  datatype Value = Str(s: string) | Num(n: real) | Bool(b: bool) | Null | Bytes(data: seq<Base64.byte>)

  /** A JSON object, a form value map or a submission payload. */
  type Record = map<string, Value>

  /** Truthiness: empty strings, zero, false, null/undefined and empty byte strings are falsy. */
  predicate Truthy(v: Value) {
    match v
    case Str(s) => s != []
    case Num(n) => n != 0.0
    case Bool(b) => b
    case Null => false
    case Bytes(d) => |d| > 0
  }

  /** `a || b` */
  function Or(a: Value, b: Value): Value {
    if Truthy(a) then a else b
  }

  /** `r[k]`: a missing key reads as undefined. */
  function Get(r: Record, k: string): Value {
    if k in r then r[k] else Null
  }

  const Empty: Value := Str("")

  function Pow10(n: nat): (r: nat)
    ensures r > 0
  {
    if n == 0 then 1 else 10 * Pow10(n - 1)
  }

  /** Digits with at most one decimal point and at least one digit: "12", "12.5", ".5", "5." */
  function ParseUnsignedDecimal(s: string): Option<real> {
    if '.' !in s then
      if |s| > 0 && AllDigits(s) then Some(DigitsValue(s) as real) else None
    else
      var k := FirstIndex(s, '.');
      var whole, frac := s[..k], s[k + 1..];
      if AllDigits(whole) && AllDigits(frac) && |whole| + |frac| > 0 then
        Some(DigitsValue(whole) as real + DigitsValue(frac) as real / Pow10(|frac|) as real)
      else None
  }

  /**
   * `Number(s)`: surrounding white space is ignored, a blank string is 0, an
   * optional sign precedes a decimal numeral; anything else is NaN (None).
   */
  function ToNumber(s: string): Option<real> {
    var t := Trim(s);
    if t == [] then Some(0.0)
    else if t[0] == '-' then
      match ParseUnsignedDecimal(t[1..])
      case Some(x) => Some(-x)
      case None => None
    else if t[0] == '+' then ParseUnsignedDecimal(t[1..])
    else ParseUnsignedDecimal(t)
  }

  /** The length of the longest prefix of decimal digits. */
  function DigitPrefix(s: string): (k: nat)
    ensures k <= |s| && AllDigits(s[..k])
    ensures k < |s| ==> !IsDigit(s[k])
  {
    if |s| > 0 && IsDigit(s[0]) then
      var k := 1 + DigitPrefix(s[1..]);
      assert s[..k] == [s[0]] + s[1..][..k - 1];
      k
    else 0
  }

  /**
   * `parseInt(s)` in base ten: leading white space and a sign are skipped and
   * the longest run of digits is read; no digit at all gives NaN (None).
   */
  function ParseInt(s: string): Option<int> {
    var t := TrimStart(s);
    var negative := |t| > 0 && t[0] == '-';
    var u := if |t| > 0 && (t[0] == '-' || t[0] == '+') then t[1..] else t;
    var k := DigitPrefix(u);
    var magnitude: int := DigitsValue(u[..k]);
    if k == 0 then None
    else if negative then Some(-magnitude)
    else Some(magnitude)
  }

  lemma TrimDigits(s: string)
    requires |s| > 0 && AllDigits(s)
    ensures TrimStart(s) == s && Trim(s) == s
  {
    assert IsDigit(s[0]) && IsDigit(s[|s| - 1]);
    assert !IsSpace(s[0]) && !IsSpace(s[|s| - 1]);
  }

  lemma {:induction false} DigitPrefixAll(s: string)
    requires AllDigits(s)
    ensures DigitPrefix(s) == |s|
  {
    if |s| > 0 {
      DigitPrefixAll(s[1..]);
    }
  }

  lemma NoPointInDigits(s: string)
    requires AllDigits(s)
    ensures '.' !in s
  {
    forall i | 0 <= i < |s|
      ensures s[i] != '.'
    {
      assert IsDigit(s[i]);
    }
  }

  /** `String(n)` read back by `parseInt` gives `n`. */
  lemma ParseIntNatToString(n: nat)
    ensures ParseInt(NatToString(n)) == Some(n)
  {
    var s := NatToString(n);
    TrimDigits(s);
    DigitPrefixAll(s);
    assert s[..|s|] == s;
  }

  /** `String(n)` read back by `Number` gives `n`. */
  lemma ToNumberNatToString(n: nat)
    ensures ToNumber(NatToString(n)) == Some(n as real)
  {
    var s := NatToString(n);
    TrimDigits(s);
    NoPointInDigits(s);
    assert IsDigit(s[0]);
    assert ParseUnsignedDecimal(s) == Some(n as real);
  }

  /** The numeric reading of a value, as `Number(v)` and the relational operators compute it. */
  function NumberOf(v: Value): Option<real> {
    match v
    case Str(s) => ToNumber(s)
    case Num(n) => Some(n)
    case Bool(b) => Some(if b then 1.0 else 0.0)
    case Null => Some(0.0)
    case Bytes(_) => None
  }

  /** `a == b` between a number and a string or between two values of one type. */
  predicate LooseEquals(a: Value, b: Value) {
    match (a, b)
    case (Num(x), Str(s)) => ToNumber(s) == Some(x)
    case (Str(s), Num(x)) => ToNumber(s) == Some(x)
    case _ => a == b
  }

  /** `v === parseInt(s)`: never true when `s` does not start with digits. */
  predicate EqualsParsedInt(v: Value, s: string) {
    match ParseInt(s)
    case Some(n) => v == Num(n as real)
    case None => false
  }

  /**
   * The methods every object literal inherits from `Object.prototype`,
   * with the `length` (declared parameter count) each function reports.
   */
  const InheritedArity: map<string, nat> := map[
    "constructor" := 1, "hasOwnProperty" := 1, "isPrototypeOf" := 1, "propertyIsEnumerable" := 1,
    "toLocaleString" := 0, "toString" := 0, "valueOf" := 0,
    "__defineGetter__" := 2, "__defineSetter__" := 2, "__lookupGetter__" := 1, "__lookupSetter__" := 1]

  /**
   * A key that an object literal without that own key answers from
   * `Object.prototype`, with a truthy value: an inherited method, or
   * `__proto__`, the prototype object itself.
   */
  predicate FromPrototype(key: string) {
    key in InheritedArity || key == "__proto__"
  }
}
