/**
 * JavaScript values as they reach the handlers from a parsed JSON body, and the
 * coercions the core applies to them: truthiness (`x || y`, `if (x)`),
 * `String(x)` and `Number(x)` followed by `Number.isFinite`.
 */
module JsValues {
  import opened Wrappers
  import opened JsString

  /** A primitive value. `NonFinite` stands for NaN, the value `Number` gives on failure. */
  datatype Scalar = Missing | Null | Bool(b: bool) | Num(n: real) | NonFinite | Str(s: string)

  /** A body value: a primitive, an array, or an object whose properties are primitives. */
  datatype Raw = Value(v: Scalar) | Arr(items: seq<Raw>) | Obj(fields: map<string, Scalar>)

  const Undefined: Raw := Value(Missing)

  predicate Truthy(v: Scalar) {
    match v
    case Missing => false
    case Null => false
    case Bool(b) => b
    case Num(n) => n != 0.0
    case NonFinite => false
    case Str(s) => s != ""
  }

  /** Arrays and objects are always truthy. */
  predicate RawTruthy(r: Raw) {
    !r.Value? || Truthy(r.v)
  }

  /** `a || b` */
  function Or(a: Scalar, b: Scalar): (r: Scalar)
  {
    if Truthy(a) then a else b
  }

  /** `r[key]`: the property of an object, `undefined` for anything else. */
  function Prop(r: Raw, key: string): Scalar {
    if r.Obj? && key in r.fields then r.fields[key] else Missing
  }

  /** `String(v)` */
  function Text(v: Scalar): string {
    match v
    case Missing => "undefined"
    case Null => "null"
    case Bool(b) => if b then "true" else "false"
    case Num(n) => NumText(n)
    case NonFinite => "NaN"
    case Str(s) => s
  }

  /** `String(r[key] || '')`, the text the sanitiser reads from a field. */
  function FieldText(r: Raw, key: string): string {
    Text(Or(Prop(r, key), Str("")))
  }

  /** `Number(v)` when it is finite, `None` when `Number.isFinite(Number(v))` is false. */
  function FiniteNumber(v: Scalar): Option<real> {
    match v
    case Missing => None
    case Null => Some(0.0)
    case Bool(b) => Some(if b then 1.0 else 0.0)
    case Num(n) => Some(n)
    case NonFinite => None
    case Str(s) => ParseNumber(s)
  }

  /** Decimal digits, optionally with one point; at least one digit somewhere. */
  function ParseUnsigned(u: string): Option<real> {
    if '.' in u then
      var k := IndexOfChar(u, '.');
      var whole, frac := u[..k], u[k + 1..];
      if (whole != [] || frac != []) && AllDigits(whole) && AllDigits(frac) then
        Some(DigitsValue(whole) as real + DigitsValue(frac) as real / Pow10(|frac|) as real)
      else None
    else if u != [] && AllDigits(u) then Some(DigitsValue(u) as real)
    else None
  }

  /** `Number(s)` for a string: blank text is 0, a signed decimal literal its value, anything else NaN. */
  function ParseNumber(s: string): Option<real> {
    var t := Trim(s);
    if t == [] then Some(0.0)
    else if t[0] == '-' then
      match ParseUnsigned(t[1..])
      case Some(x) => Some(-x)
      case None => None
    else if t[0] == '+' then ParseUnsigned(t[1..])
    else ParseUnsigned(t)
  }

  /** `Number(null)` is 0, so an explicit null is a finite number. */
  lemma NullIsZero()
    ensures FiniteNumber(Null) == Some(0.0)
  {
  }

  /** The decimal text of a natural number reads back as that number. */
  lemma ParseNatText(n: nat)
    ensures FiniteNumber(Str(NatText(n))) == Some(n as real)
  {
    var t := NatText(n);
    assert IsDigit(t[0]) && IsDigit(t[|t| - 1]);
    TrimOfTrimmed(t);
    assert Trim(t) == t;
    assert '.' !in t by {
      forall k | 0 <= k < |t|
        ensures t[k] != '.'
      {
        assert IsDigit(t[k]);
      }
    }
    assert ParseUnsigned(t) == Some(n as real);
    assert ParseNumber(t) == ParseUnsigned(t);
  }
}
