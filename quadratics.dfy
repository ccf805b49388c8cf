/**
 * The quadratic `a t^2 + b t + c` in the ray parameter that the sphere,
 * annulus and cylinder intersections solve, and the facts about its roots
 * those routines rely on.
 */
module Quadratics {
  import opened RealMath
  import opened Vectors

  datatype Quadratic = Quadratic(a: real, b: real, c: real)
  {
    function Discriminant(): real { b * b - 4.0 * a * c }

    function ValueAt(t: real): real { a * t * t + b * t + c }
  }

  /** The smaller root `(-b - sqrt(disc)) / 2a` of a quadratic with a positive leading coefficient. */
  function LowRoot(m: Math, q: Quadratic): real
    requires 0.0 < q.a
  {
    (-q.b - m.sqrt(q.Discriminant())) / (2.0 * q.a)
  }

  /** The larger root `(-b + sqrt(disc)) / 2a`. */
  function HighRoot(m: Math, q: Quadratic): real
    requires 0.0 < q.a
  {
    (-q.b + m.sqrt(q.Discriminant())) / (2.0 * q.a)
  }

  /** With an exact square root and a positive discriminant, the quadratic is `a (t - low) (t - high)`. */
  lemma Factored(m: Math, q: Quadratic, t: real)
    requires m.SqrtExact() && 0.0 < q.a && 0.0 < q.Discriminant()
    ensures LowRoot(m, q) < HighRoot(m, q)
    ensures q.ValueAt(t) == q.a * (t - LowRoot(m, q)) * (t - HighRoot(m, q))
  {
    var a, b, c := q.a, q.b, q.c;
    var root := m.sqrt(q.Discriminant());
    SqrtZeroIff(m, q.Discriminant());
    var lo, hi := LowRoot(m, q), HighRoot(m, q);
    var p := 2.0 * a;
    assert lo * p == -b - root;
    assert hi * p == -b + root;
    assert (hi - lo) * p == 2.0 * root;
    PositiveProduct(root, 1.0);
    assert lo < hi;
    assert (lo + hi) * a == -b;
    assert (lo * p) * (hi * p) == b * b - root * root == 4.0 * a * c;
    assert (lo * hi) * (4.0 * a * a) == 4.0 * a * c;
    assert (lo * hi * a) * (4.0 * a) == c * (4.0 * a);
    assert lo * hi * a == c;
    assert a * (t - lo) * (t - hi) == a * t * t - (lo + hi) * a * t + lo * hi * a;
  }

  /** The roots are zeros of the quadratic. */
  lemma RootsAreZeros(m: Math, q: Quadratic)
    requires m.SqrtExact() && 0.0 < q.a && 0.0 < q.Discriminant()
    ensures q.ValueAt(LowRoot(m, q)) == 0.0 && q.ValueAt(HighRoot(m, q)) == 0.0
  {
    Factored(m, q, LowRoot(m, q));
    Factored(m, q, HighRoot(m, q));
  }

  /** The quadratic is at most zero exactly between its roots, and negative exactly strictly between them. */
  lemma SignBetweenRoots(m: Math, q: Quadratic, t: real)
    requires m.SqrtExact() && 0.0 < q.a && 0.0 < q.Discriminant()
    ensures q.ValueAt(t) <= 0.0 <==> LowRoot(m, q) <= t <= HighRoot(m, q)
    ensures q.ValueAt(t) < 0.0 <==> LowRoot(m, q) < t < HighRoot(m, q)
  {
    Factored(m, q, t);
    var lo, hi := LowRoot(m, q), HighRoot(m, q);
    var u, v := t - lo, t - hi;
    assert q.ValueAt(t) == q.a * (u * v);
    ProductSign(u, v);
    SignOfScaled(q.a, u * v);
  }

  /** For `u >= v`, the product `u v` is at most zero iff `v <= 0 <= u`, and negative iff `v < 0 < u`. */
  lemma ProductSign(u: real, v: real)
    ensures u >= v ==> (u * v <= 0.0 <==> v <= 0.0 <= u)
    ensures u > v ==> (u * v < 0.0 <==> v < 0.0 < u)
  {
    if v < 0.0 < u {
      PositiveProduct(u, -v);
    } else if 0.0 < v && v <= u {
      PositiveProduct(u, v);
    } else if u < 0.0 && v <= u {
      PositiveProduct(-u, -v);
    }
  }

  /** Scaling by a positive factor keeps the sign. */
  lemma SignOfScaled(a: real, x: real)
    requires 0.0 < a
    ensures a * x <= 0.0 <==> x <= 0.0
    ensures a * x < 0.0 <==> x < 0.0
  {
    if x < 0.0 {
      PositiveProduct(a, -x);
    } else if 0.0 < x {
      PositiveProduct(a, x);
    }
  }

  /** The squared distance travelled along `w + d t` is a quadratic in `t`. */
  lemma DotAlongLine(w: Vec3, d: Vec3, t: real)
    ensures var p := Add(w, Scale(d, t));
      Dot(p, p) == Dot(d, d) * t * t + 2.0 * Dot(d, w) * t + Dot(w, w)
  {
  }
  /** Completing the square: `4 a q(t) == (2 a t + b)^2 - disc`. */
  lemma Completed(q: Quadratic, t: real)
    ensures 4.0 * q.a * q.ValueAt(t) == (2.0 * q.a * t + q.b) * (2.0 * q.a * t + q.b) - q.Discriminant()
  {
    var a, b, c := q.a, q.b, q.c;
    assert (2.0 * a * t + b) * (2.0 * a * t + b) == 4.0 * a * a * t * t + 4.0 * a * b * t + b * b;
    assert 4.0 * a * (a * t * t + b * t + c) == 4.0 * a * a * t * t + 4.0 * a * b * t + 4.0 * a * c;
  }

  /** With a negative discriminant an upward quadratic is positive everywhere: the line never enters. */
  lemma NoRealRoots(q: Quadratic, t: real)
    requires 0.0 < q.a && q.Discriminant() < 0.0
    ensures 0.0 < q.ValueAt(t)
  {
    var s := 2.0 * q.a * t + q.b;
    Completed(q, t);
    assert 0.0 <= s * s by { if s < 0.0 { PositiveProduct(-s, -s); } else if 0.0 < s { PositiveProduct(s, s); } }
    SignOfScaled(4.0 * q.a, q.ValueAt(t));
  }

  /**
   * With a zero discriminant an upward quadratic touches zero only at
   * `-b / 2a`, where both roots coincide: the tangent line.
   */
  lemma DoubleRoot(m: Math, q: Quadratic, t: real)
    requires m.SqrtExact() && 0.0 < q.a && q.Discriminant() == 0.0
    ensures LowRoot(m, q) == HighRoot(m, q) == -q.b / (2.0 * q.a)
    ensures q.ValueAt(t) <= 0.0 <==> t == -q.b / (2.0 * q.a)
  {
    SqrtZeroIff(m, 0.0);
    var s := 2.0 * q.a * t + q.b;
    var v, k := q.ValueAt(t), 4.0 * q.a;
    Completed(q, t);
    assert k * v == s * s;
    SignOfScaled(k, v);
    if s != 0.0 {
      calc {
        k * v;
        s * s;
      > { if s < 0.0 { PositiveProduct(-s, -s); } else { PositiveProduct(s, s); } }
        0.0;
      }
    } else {
      assert k * v == 0.0;
      assert v <= 0.0;
    }
    LinearZero(2.0 * q.a, q.b, t);
  }

  lemma LinearZero(p: real, b: real, t: real)
    requires p != 0.0
    ensures p * t + b == 0.0 <==> t == -b / p
  {
    if t == -b / p {
      assert p * (-b / p) == -b;
    }
  }
}
