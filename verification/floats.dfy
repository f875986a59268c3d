/** The C++ number types. IEEE-754 doubles are reduced to what the C++ gates observe: a finite value (kept exact,
    as a real), NaN, or an infinity. Comparisons follow IEEE rules: every ordered
    comparison involving NaN is false. */
module Floats {

  datatype Flt = Fin(v: real) | NaN | PosInf | NegInf

  /** A C++ `int` (32 bits on every target the program builds for). */
  type Int32 = x: int | -0x8000_0000 <= x < 0x8000_0000

  predicate IsFinite(x: Flt) { x.Fin? }

  /** `std::isnan(x) || std::isinf(x)` */
  predicate NonFinite(x: Flt) { !x.Fin? }

  /** IEEE `a < b` */
  predicate Lt(a: Flt, b: Flt)
  {
    match (a, b)
    case (NaN, _) => false
    case (_, NaN) => false
    case (Fin(x), Fin(y)) => x < y
    case (NegInf, NegInf) => false
    case (NegInf, _) => true
    case (_, NegInf) => false
    case (PosInf, _) => false
    case (Fin(_), PosInf) => true
  }

  /** IEEE `a > b` */
  predicate Gt(a: Flt, b: Flt) { Lt(b, a) }

  /** `std::abs` */
  function Abs(a: Flt): (r: Flt)
    ensures a.Fin? <==> r.Fin?
    ensures a.NaN? <==> r.NaN?
    ensures r.Fin? ==> r.v >= 0.0 && (r.v == a.v || r.v == -a.v)
  {
    match a
    case Fin(x) => Fin(if x < 0.0 then -x else x)
    case NaN => NaN
    case _ => PosInf
  }

  /** NaN compares false against everything: a NaN value passes any gate written as
      `if (x < lo || x > hi) reject`. */
  lemma NaNPassesRangeGate(lo: real, hi: real)
    ensures !(Lt(NaN, Fin(lo)) || Gt(NaN, Fin(hi)))
  {
  }

  /** `static_cast<int>(x)`: truncation toward zero (out-of-range casts are not modelled). */
  function Trunc(x: real): (r: int)
    ensures x >= 0.0 ==> r as real <= x < r as real + 1.0
    ensures x <= 0.0 ==> r as real - 1.0 < x <= r as real
  {
    if x >= 0.0 then x.Floor else -((-x).Floor)
  }

  /** `std::ceil(x)` */
  function Ceil(x: real): (r: int)
    ensures x <= r as real < x + 1.0
  {
    -((-x).Floor)
  }

  /** IEEE `-a` */
  function Neg(a: Flt): (r: Flt)
    ensures r.Fin? <==> a.Fin?
    ensures r.NaN? <==> a.NaN?
    ensures r.Fin? ==> r.v == -a.v
  {
    match a
    case Fin(x) => Fin(-x)
    case NaN => NaN
    case PosInf => NegInf
    case NegInf => PosInf
  }

  /** IEEE `a + b`: NaN propagates, opposite infinities give NaN, an infinity absorbs a
      finite operand (a finite sum is exact: overflow is not modelled). */
  function Add(a: Flt, b: Flt): (r: Flt)
    ensures r.Fin? <==> a.Fin? && b.Fin?
    ensures a.NaN? || b.NaN? ==> r.NaN?
    ensures r.Fin? ==> r.v == a.v + b.v
    ensures (a.PosInf? && b.NegInf?) || (a.NegInf? && b.PosInf?) ==> r.NaN?
  {
    match (a, b)
    case (NaN, _) => NaN
    case (_, NaN) => NaN
    case (Fin(x), Fin(y)) => Fin(x + y)
    case (Fin(_), _) => b
    case (_, Fin(_)) => a
    case _ => if a == b then a else NaN
  }

  /** IEEE `a - b` */
  function Sub(a: Flt, b: Flt): (r: Flt)
    ensures r.Fin? <==> a.Fin? && b.Fin?
    ensures a.NaN? || b.NaN? ==> r.NaN?
    ensures r.Fin? ==> r.v == a.v - b.v
  {
    Add(a, Neg(b))
  }

  /** A finite factor times an infinity: NaN for zero, otherwise an infinity signed by
      the rule of signs. */
  function TimesInfinity(x: real, inf: Flt): (r: Flt)
    requires inf.PosInf? || inf.NegInf?
    ensures r.NaN? <==> x == 0.0
  {
    if x == 0.0 then NaN else if (x > 0.0) == inf.PosInf? then PosInf else NegInf
  }

  /** IEEE `a * b` (a finite product is exact: overflow is not modelled). */
  function Mul(a: Flt, b: Flt): (r: Flt)
    ensures r.Fin? <==> a.Fin? && b.Fin?
    ensures a.NaN? || b.NaN? ==> r.NaN?
    ensures r.Fin? ==> r.v == a.v * b.v
    ensures a == Fin(0.0) && !b.Fin? ==> r.NaN?
  {
    match (a, b)
    case (NaN, _) => NaN
    case (_, NaN) => NaN
    case (Fin(x), Fin(y)) => Fin(x * y)
    case (Fin(x), _) => TimesInfinity(x, b)
    case (_, Fin(y)) => TimesInfinity(y, a)
    case _ => if a == b then PosInf else NegInf
  }

  /** An infinity absorbs a finite addend. */
  lemma InfinityAbsorbsFinite(a: Flt, b: Flt)
    requires a.Fin? && (b.PosInf? || b.NegInf?)
    ensures Add(a, b) == b
  {
  }

  /** An infinity times a non-zero finite factor is an infinity. */
  lemma InfinityTimesNonZero(a: Flt, b: Flt)
    requires (a.PosInf? || a.NegInf?) && b.Fin? && b.v != 0.0
    ensures Mul(a, b).PosInf? || Mul(a, b).NegInf?
  {
  }

  /** IEEE `a / b`. A zero divisor is taken to be +0 (the sign of zero is not modelled). */
  function Div(a: Flt, b: Flt): (r: Flt)
    ensures a.NaN? || b.NaN? ==> r.NaN?
    ensures a.Fin? && b.Fin? && b.v != 0.0 ==> r == Fin(a.v / b.v)
    ensures a.PosInf? && b.Fin? && b.v > 0.0 ==> r.PosInf?
  {
    match (a, b)
    case (NaN, _) => NaN
    case (_, NaN) => NaN
    case (Fin(x), Fin(y)) =>
      if y != 0.0 then Fin(x / y) else if x == 0.0 then NaN else if x > 0.0 then PosInf else NegInf
    case (Fin(_), _) => Fin(0.0)
    case (_, Fin(y)) => if a.PosInf? == (y >= 0.0) then PosInf else NegInf
    case _ => NaN
  }

  /** IEEE `a * a + b * b`: NaN if either is NaN, +infinity if either is infinite. */
  function NormSq(a: Flt, b: Flt): (r: Flt)
    ensures r.Fin? <==> a.Fin? && b.Fin?
    ensures r.NaN? <==> a.NaN? || b.NaN?
    ensures r.Fin? ==> r.v == a.v * a.v + b.v * b.v && r.v >= 0.0
  {
    if a.NaN? || b.NaN? then NaN
    else if !a.Fin? || !b.Fin? then PosInf
    else
      assert a.v * a.v >= 0.0 && b.v * b.v >= 0.0;
      Fin(a.v * a.v + b.v * b.v)
  }

  /** `std::sqrt(n) < lo || std::sqrt(n) > hi` for a sum of squares `n` and positive
      bounds, compared on the squares: NaN passes, +infinity fails. */
  predicate RootOutside(n: Flt, lo: real, hi: real)
  {
    match n
    case Fin(s) => s < lo * lo || s > hi * hi
    case PosInf => true
    case _ => false
  }
}
