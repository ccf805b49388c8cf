/** Piecewise-linear interpolation over a sorted table, as `numpy.interp` does it inside the table. */
module Tables {
  import opened RealMath

  predicate StrictlyIncreasing(xs: seq<real>)
  {
    forall i, j :: 0 <= i < j < |xs| ==> xs[i] < xs[j]
  }

  /** The straight line through (x0, y0) and (x1, y1), evaluated at x. */
  function Lerp(x0: real, x1: real, y0: real, y1: real, x: real): real
    requires x0 < x1
  {
    y0 + (x - x0) * (y1 - y0) / (x1 - x0)
  }

  /**
   * `numpy.interp(x, xs, ys)`: the first value at or before the first knot,
   * the last value after the last knot, the line through the bracketing
   * knots in between.
   */
  function Interp(x: real, xs: seq<real>, ys: seq<real>): real
    requires |xs| == |ys| >= 1
    decreases |xs|
  {
    if |xs| == 1 || x <= xs[0] then ys[0]
    else if x < xs[1] then Lerp(xs[0], xs[1], ys[0], ys[1], x)
    else Interp(x, xs[1..], ys[1..])
  }

  /** At a tabulated knot the interpolation returns the tabulated value. */
  lemma {:induction false} InterpAtKnot(xs: seq<real>, ys: seq<real>, k: nat)
    requires |xs| == |ys| && k < |xs| && StrictlyIncreasing(xs)
    ensures Interp(xs[k], xs, ys) == ys[k]
  {
    if k > 0 {
      assert xs[1..][k - 1] == xs[k];
      InterpAtKnot(xs[1..], ys[1..], k - 1);
    }
  }

  /** Between two neighbouring knots the interpolation is the line through them. */
  lemma {:induction false} InterpOnSegment(x: real, xs: seq<real>, ys: seq<real>, i: nat)
    requires |xs| == |ys| && i + 1 < |xs| && StrictlyIncreasing(xs)
    requires xs[i] <= x <= xs[i + 1]
    ensures Interp(x, xs, ys) == Lerp(xs[i], xs[i + 1], ys[i], ys[i + 1], x)
  {
    if i == 0 {
      if x == xs[1] {
        InterpAtKnot(xs, ys, 1);
        LerpAtEnd(xs[0], xs[1], ys[0], ys[1]);
      } else if x == xs[0] {
        assert (x - xs[0]) * (ys[1] - ys[0]) == 0.0;
      }
    } else {
      InterpOnSegment(x, xs[1..], ys[1..], i - 1);
    }
  }

  /** The line through two knots passes through the second one. */
  lemma LerpAtEnd(x0: real, x1: real, y0: real, y1: real)
    requires x0 < x1
    ensures Lerp(x0, x1, y0, y1, x1) == y1
  {
    var q := x1 - x0;
    assert q * (y1 - y0) / q == y1 - y0;
  }

  /** On a segment the line stays between the values at its ends. */
  lemma LerpBetween(x0: real, x1: real, y0: real, y1: real, x: real)
    requires x0 < x1 && x0 <= x <= x1
    ensures Min(y0, y1) <= Lerp(x0, x1, y0, y1, x) <= Max(y0, y1)
  {
    var f := (x - x0) / (x1 - x0);
    UnitFraction(x - x0, x1 - x0);
    LerpFraction(x0, x1, y0, y1, x);
    OffsetBetween(y0, y1, f);
  }

  /** Going a fraction in [0, 1] of the way from y0 to y1 stays between them. */
  lemma OffsetBetween(y0: real, y1: real, f: real)
    requires 0.0 <= f <= 1.0
    ensures Min(y0, y1) <= y0 + f * (y1 - y0) <= Max(y0, y1)
  {
    if y0 <= y1 {
      RiseFraction(f, y0, y1);
    } else {
      RiseFraction(f, y1, y0);
      ScaleNegated(f, y0, y1);
    }
  }

  /** The line is the first value plus the fraction of the way along the segment times the rise. */
  lemma LerpFraction(x0: real, x1: real, y0: real, y1: real, x: real)
    requires x0 < x1
    ensures Lerp(x0, x1, y0, y1, x) == y0 + ((x - x0) / (x1 - x0)) * (y1 - y0)
  {
    DivMulSwap(x - x0, y1 - y0, x1 - x0);
  }

  lemma ScaleNegated(f: real, a: real, b: real)
    ensures f * (b - a) == -(f * (a - b))
  {
  }

  /** A fraction in [0, 1] of the rise from a to b >= a lies between zero and the whole rise. */
  lemma RiseFraction(f: real, a: real, b: real)
    requires 0.0 <= f <= 1.0 && a <= b
    ensures 0.0 <= f * (b - a) <= b - a
  {
    var d, g := b - a, 1.0 - f;
    assert 0.0 <= f * d by {
      MulLeft(0.0, f, d);
    }
    assert 0.0 <= g * d by {
      MulLeft(0.0, g, d);
    }
    assert g * d == d - f * d;
  }

  /** `f` applied to every entry, `numpy.log10(table)` and the like. */
  function MapAll(f: real -> real, xs: seq<real>): (r: seq<real>)
    ensures |r| == |xs| && forall i :: 0 <= i < |xs| ==> r[i] == f(xs[i])
  {
    seq(|xs|, i requires 0 <= i < |xs| => f(xs[i]))
  }
}
