/** The Ruby values a PEQ setter receives and the conversions applied to them
    (lib/mb/eq_loader/value_types.rb and the core `to_i` coercions). Ruby
    floats are modelled as reals; the two float conversions that depend on
    IEEE rounding of logarithms and products are parameters (`Units`). */
module Values {
  import opened Common

  datatype Value = Nil | Bool(b: bool) | Int(i: int) | Float(x: real) | Sym(name: string)

  /** `ValueTypes.log` and `ValueTypes.scalar` on a float argument:
      `(Math.log10(x) * 1000000).round` and `(x * 10000).round`. */
  datatype Units = Units(log: real -> int, scalar: real -> int)

  /** Ruby's truthiness: only nil and false are false. */
  predicate Truthy(v: Value)
  {
    v != Nil && v != Bool(false)
  }

  /** `ValueTypes.binary`: `!!value ? 1 : 0`. */
  function Binary(v: Value): (r: int)
    ensures r == 0 || r == 1
    ensures r == 1 <==> Truthy(v)
  {
    if Truthy(v) then 1 else 0
  }

  /** `Float#to_i`: rounds toward zero. */
  function Truncate(x: real): (r: int)
    ensures 0.0 <= x ==> r as real <= x < r as real + 1.0
    ensures x < 0.0 ==> r as real - 1.0 < x <= r as real
  {
    if x >= 0.0 then x.Floor else -((-x).Floor)
  }

  /** `value.to_i`: integers unchanged, floats truncated, `nil.to_i` is 0;
      true, false and symbols have no `to_i`. */
  function ToI(v: Value): (r: Result<int>)
    ensures v.Int? ==> r == Success(v.i)
    ensures v.Float? ==> r == Success(Truncate(v.x))
    ensures v.Nil? ==> r == Success(0)
    ensures v.Bool? || v.Sym? ==> r == Failure(UndefinedMethod)
  {
    match v
    case Int(i) => Success(i)
    case Float(x) => Success(Truncate(x))
    case Nil => Success(0)
    case Bool(_) => Failure(UndefinedMethod)
    case Sym(_) => Failure(UndefinedMethod)
  }

  /** `ValueTypes.log`: `Math.log10` rejects non-numbers, raises a domain
      error below zero, and at zero yields -Infinity, which `round` rejects. */
  function Log(units: Units, v: Value): (r: Result<int>)
    ensures r.Success? <==> (v.Int? && v.i > 0) || (v.Float? && v.x > 0.0)
  {
    match v
    case Int(i) => if i > 0 then Success(units.log(i as real)) else Failure(MathDomain)
    case Float(x) => if x > 0.0 then Success(units.log(x)) else Failure(MathDomain)
    case _ => Failure(NotFloatConvertible)
  }

  /** `ValueTypes.scalar`: `(value * 10000).round`, exact for an integer;
      nil, booleans and symbols have no `*`. */
  function Scalar(units: Units, v: Value): (r: Result<int>)
    ensures r.Success? <==> v.Int? || v.Float?
    ensures v.Int? ==> r == Success(v.i * 10000)
  {
    match v
    case Int(i) => Success(i * 10000)
    case Float(x) => Success(units.scalar(x))
    case _ => Failure(UndefinedMethod)
  }
}
