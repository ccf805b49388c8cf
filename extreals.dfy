/**
 * The IEEE-754 values that appear in a ray's inverse direction and in the
 * slab parameters of the box test: finite reals, both infinities and NaN.
 * Only the operations the box test performs are defined.
 */
module ExtReals {

  datatype ExtReal = NegInf | Fin(r: real) | PosInf | NaN

  /**
   * `1 / x` for a direction component.  A zero component is taken to be
   * +0.0, so its inverse is +inf; a -0.0 component (from `-0.0 - 0.0`, an
   * end at x = -0.0 with the start at x = 0.0) would give -inf in numpy
   * and is not distinguished here.
   */
  function Recip(x: real): (r: ExtReal)
    ensures x == 0.0 <==> r == PosInf
    ensures x != 0.0 ==> r.Fin? && r.r * x == 1.0
  {
    if x == 0.0 then PosInf else Fin(1.0 / x)
  }

  /** The product of a finite `a` and `b`; `0 * inf` is NaN. */
  function Times(a: real, b: ExtReal): ExtReal
  {
    match b
    case Fin(y) => Fin(a * y)
    case PosInf => if a > 0.0 then PosInf else if a < 0.0 then NegInf else NaN
    case NegInf => if a > 0.0 then NegInf else if a < 0.0 then PosInf else NaN
    case NaN => NaN
  }

  /** IEEE `a < b`: false whenever either side is NaN. */
  predicate Less(a: ExtReal, b: ExtReal)
  {
    match (a, b)
    case (NaN, _) => false
    case (_, NaN) => false
    case (NegInf, NegInf) => false
    case (NegInf, _) => true
    case (Fin(x), Fin(y)) => x < y
    case (Fin(_), PosInf) => true
    case (Fin(_), NegInf) => false
    case (PosInf, _) => false
  }

  /** `0 <= t <= length`, which holds only for a finite `t`. */
  predicate Within(t: ExtReal, length: real)
  {
    t.Fin? && 0.0 <= t.r <= length
  }

  /** `x < 0` for a finite or infinite value. */
  predicate Negative(a: ExtReal)
  {
    Less(a, Fin(0.0))
  }

  lemma LessIrreflexive(a: ExtReal)
    ensures !Less(a, a)
  {
  }

  lemma LessTransitive(a: ExtReal, b: ExtReal, c: ExtReal)
    requires Less(a, b) && Less(b, c)
    ensures Less(a, c)
  {
  }
}
