/**
 * JavaScript numbers as the percentage arithmetic needs them: a real value or
 * one of IEEE 754's special values. Rounding is not modelled; what is kept is
 * how division by zero, Math.min and the comparisons treat the special values.
 */
module JsNumber {

  datatype Num = Finite(value: real) | PosInf | NegInf | NaN

  /** `a / b` on finite operands. */
  function Quotient(a: real, b: real): (r: Num)
    ensures b != 0.0 ==> r == Finite(a / b)
    ensures b == 0.0 ==> (r == NaN <==> a == 0.0)
    ensures b == 0.0 ==> (r == PosInf <==> a > 0.0) && (r == NegInf <==> a < 0.0)
  {
    if b != 0.0 then Finite(a / b)
    else if a > 0.0 then PosInf
    else if a < 0.0 then NegInf
    else NaN
  }

  /** `x * k` for a positive finite `k`. */
  function Scale(x: Num, k: real): Num
    requires k > 0.0
  {
    match x
    case Finite(v) => Finite(v * k)
    case _ => x
  }

  /** `(a / b) * 100`. */
  function Percent(a: real, b: real): Num {
    Scale(Quotient(a, b), 100.0)
  }

  /** `Math.min(bound, x)`: NaN wins, +Infinity loses. */
  function MinWith(bound: real, x: Num): (r: Num)
    ensures r != PosInf
    ensures r.Finite? ==> r.value <= bound
  {
    match x
    case NaN => NaN
    case PosInf => Finite(bound)
    case NegInf => NegInf
    case Finite(v) => Finite(if v <= bound then v else bound)
  }

  /** `x + y`; Infinity - Infinity is NaN. */
  function Plus(x: Num, y: Num): Num {
    if x == NaN || y == NaN then NaN
    else if (x == PosInf && y == NegInf) || (x == NegInf && y == PosInf) then NaN
    else if x == PosInf || y == PosInf then PosInf
    else if x == NegInf || y == NegInf then NegInf
    else Finite(x.value + y.value)
  }

  /** `x / n` for a positive count `n`. */
  function DivByCount(x: Num, n: nat): Num
    requires n > 0
  {
    match x
    case Finite(v) => Finite(v / n as real)
    case _ => x
  }

  /** `x > y`: false whenever NaN is involved. */
  predicate Greater(x: Num, y: Num) {
    match (x, y)
    case (NaN, _) => false
    case (_, NaN) => false
    case (PosInf, _) => y != PosInf
    case (_, NegInf) => x != NegInf
    case (Finite(a), Finite(b)) => a > b
    case (_, _) => false
  }

  /** `x >= y`: false whenever NaN is involved. */
  predicate AtLeast(x: Num, y: Num) {
    x != NaN && y != NaN && (x == y || Greater(x, y))
  }

  /** `>` is a strict order on the numbers that are not NaN. */
  lemma GreaterTransitive(x: Num, y: Num, z: Num)
    requires Greater(x, y) && Greater(y, z)
    ensures Greater(x, z)
  {
  }
}
