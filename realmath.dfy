/**
 * The floating-point library functions the model relies on, passed in as
 * values.  Each is constrained only by the algebraic facts the model needs;
 * rounding is not modelled.  `gpK(a, c, d, X, mfp)` is the K parameter of
 * the geometric-progression buildup formula for a positive mfp (its tanh
 * form up to 40 mfp and its extrapolation beyond).
 */
module RealMath {

  /** Python's `math.pi`, the double nearest to pi. */
  const Pi: real := 3.141592653589793

  datatype Math = Math(
    sqrt: real -> real,
    exp: real -> real,
    log10: real -> real,
    pow10: real -> real,
    cos: real -> real,
    sin: real -> real,
    ln: real -> real,
    pow: (real, real) -> real,
    gpK: (real, real, real, real, real) -> real)
  {
    /** `sqrt` is the exact non-negative square root on non-negative reals. */
    ghost predicate SqrtExact() {
      forall x :: 0.0 <= x ==> 0.0 <= sqrt(x) && sqrt(x) * sqrt(x) == x
    }

    /** `sqrt` undoes squaring on non-negative reals: all that measuring along a line needs. */
    ghost predicate SqrtOfSquares() {
      forall x {:trigger sqrt(Square(x))} :: 0.0 <= x ==> sqrt(Square(x)) == x
    }

    /** `exp` is positive and `exp(0) == 1`. */
    ghost predicate ExpExact() {
      exp(0.0) == 1.0 && forall x :: 0.0 < exp(x)
    }

    /** `10 ** log10(x) == x` for positive `x`, and `log10(10 ** y) == y`. */
    ghost predicate LogInverse() {
      (forall x :: 0.0 < x ==> pow10(log10(x)) == x) &&
      (forall y :: log10(pow10(y)) == y) &&
      (forall y :: 0.0 < pow10(y))
    }

    /** `numpy.power(k, 0.0)` is 1 for every `k`, 0 included. */
    ghost predicate PowZero() {
      forall k :: pow(k, 0.0) == 1.0
    }

    /** `log10` is strictly increasing on the positive reals. */
    ghost predicate LogIncreasing() {
      forall x, y :: 0.0 < x < y ==> log10(x) < log10(y)
    }
  }

  function Square(x: real): real { x * x }

  function Abs(x: real): (r: real)
    ensures 0.0 <= r && (r == x || r == -x)
  {
    if x < 0.0 then -x else x
  }

  function Min(x: real, y: real): (r: real)
    ensures r <= x && r <= y && (r == x || r == y)
  {
    if x <= y then x else y
  }

  function Max(x: real, y: real): (r: real)
    ensures x <= r && y <= r && (r == x || r == y)
  {
    if x >= y then x else y
  }

  /** An exact square root undoes squaring. */
  lemma SquaresOfExact(m: Math)
    requires m.SqrtExact()
    ensures m.SqrtOfSquares()
  {
    forall x | 0.0 <= x
      ensures m.sqrt(Square(x)) == x
    {
      SqrtOfSquare(m, x);
    }
  }

  /** The square root of a square is the original non-negative number. */
  lemma SqrtOfSquare(m: Math, x: real)
    requires m.SqrtExact()
    requires 0.0 <= x
    ensures m.sqrt(x * x) == x
  {
    var r := m.sqrt(x * x);
    assert 0.0 <= r && r * r == x * x;
    assert (r - x) * (r + x) == 0.0;
    if r + x != 0.0 {
      ProductZero(r - x, r + x);
    }
  }

  lemma ProductZero(a: real, b: real)
    requires a * b == 0.0 && b != 0.0
    ensures a == 0.0
  {
    assert a == (a * b) / b;
  }

  /** A square root is zero exactly when its argument is. */
  lemma SqrtZeroIff(m: Math, d: real)
    requires m.SqrtExact()
    requires 0.0 <= d
    ensures 0.0 <= m.sqrt(d) && m.sqrt(d) * m.sqrt(d) == d
    ensures m.sqrt(d) == 0.0 <==> d == 0.0
  {
    var n := m.sqrt(d);
    if d == 0.0 && n != 0.0 {
      ProductZero(n, n);
    }
  }

  /** `sqrt` is monotone on the non-negative reals. */
  lemma SqrtMonotone(m: Math, x: real, y: real)
    requires m.SqrtExact()
    requires 0.0 <= x <= y
    ensures m.sqrt(x) <= m.sqrt(y)
  {
    var a, b := m.sqrt(x), m.sqrt(y);
    if a > b {
      assert a * a - b * b == (a - b) * (a + b);
      assert (a - b) * (a + b) > 0.0 by {
        PositiveProduct(a - b, a + b);
      }
      assert false;
    }
  }

  lemma PositiveProduct(a: real, b: real)
    requires 0.0 < a && 0.0 < b
    ensures 0.0 < a * b
  {
  }

  lemma MulLeft(a: real, b: real, c: real)
    requires a <= b && 0.0 <= c
    ensures a * c <= b * c
  {
    assert b * c - a * c == (b - a) * c;
  }

  lemma DivMulSwap(a: real, b: real, q: real)
    requires q != 0.0
    ensures a * b / q == (a / q) * b
  {
    var f := a / q;
    assert f * q == a;
    assert (f * b) * q == a * b;
  }

  /** A fraction of a positive whole that is at most the whole lies in [0, 1]. */
  lemma UnitFraction(p: real, q: real)
    requires 0.0 <= p <= q && 0.0 < q
    ensures 0.0 <= p / q <= 1.0
  {
    var f := p / q;
    assert f * q == p;
    if f > 1.0 {
      MulLeft(1.0, f, q);
      assert false;
    }
    if f < 0.0 {
      MulLeft(f, 0.0, q);
      assert false;
    }
  }

  /** The sum of a sequence of reals, accumulated from the front like Python's `sum`. */
  function Sum(s: seq<real>): real
  {
    if s == [] then 0.0 else Sum(s[..|s| - 1]) + s[|s| - 1]
  }

  lemma {:induction false} SumAppend(s: seq<real>, t: seq<real>)
    ensures Sum(s + t) == Sum(s) + Sum(t)
  {
    if t == [] {
      assert s + t == s;
    } else {
      assert (s + t)[..|s + t| - 1] == s + t[..|t| - 1];
      SumAppend(s, t[..|t| - 1]);
    }
  }

  /** `n` copies of `x` sum to `n * x`. */
  lemma {:induction false} SumConstant(x: real, n: nat)
    ensures Sum(seq(n, _ => x)) == n as real * x
  {
    if n > 0 {
      assert seq(n, _ => x)[..n - 1] == seq(n - 1, _ => x);
      SumConstant(x, n - 1);
    }
  }
}
