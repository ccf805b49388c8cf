/** Three-vectors of reals: the numpy arithmetic the geometry uses. */
module Vectors {
  import opened RealMath

  datatype Vec3 = Vec3(x: real, y: real, z: real)

  const Zero := Vec3(0.0, 0.0, 0.0)

  function Add(a: Vec3, b: Vec3): Vec3 { Vec3(a.x + b.x, a.y + b.y, a.z + b.z) }

  function Sub(a: Vec3, b: Vec3): Vec3 { Vec3(a.x - b.x, a.y - b.y, a.z - b.z) }

  function Neg(a: Vec3): Vec3 { Vec3(-a.x, -a.y, -a.z) }

  function Scale(a: Vec3, k: real): Vec3 { Vec3(a.x * k, a.y * k, a.z * k) }

  /** Component-wise division by a scalar, `v / k` in numpy. */
  function DivScalar(a: Vec3, k: real): Vec3
    requires k != 0.0
  {
    Vec3(a.x / k, a.y / k, a.z / k)
  }

  function Dot(a: Vec3, b: Vec3): real { a.x * b.x + a.y * b.y + a.z * b.z }

  /** `numpy.linalg.norm`. */
  function Norm(m: Math, a: Vec3): real { m.sqrt(Dot(a, a)) }

  /** The i-th component, `v[i]` for `i` in 0..2. */
  function At(a: Vec3, i: nat): real
    requires i < 3
  {
    if i == 0 then a.x else if i == 1 then a.y else a.z
  }

  lemma DotSelfNonNegative(a: Vec3)
    ensures 0.0 <= Dot(a, a)
    ensures Dot(a, a) == 0.0 <==> a == Zero
  {
    assert 0.0 <= a.x * a.x && 0.0 <= a.y * a.y && 0.0 <= a.z * a.z;
    if Dot(a, a) == 0.0 {
      assert a.x * a.x == 0.0 && a.y * a.y == 0.0 && a.z * a.z == 0.0;
      SquareZero(a.x);
      SquareZero(a.y);
      SquareZero(a.z);
    }
  }

  lemma SquareZero(x: real)
    requires x * x == 0.0
    ensures x == 0.0
  {
    if x != 0.0 {
      ProductZero(x, x);
    }
  }

  lemma NormProperties(m: Math, a: Vec3)
    requires m.SqrtExact()
    ensures 0.0 <= Norm(m, a)
    ensures Norm(m, a) * Norm(m, a) == Dot(a, a)
    ensures Norm(m, a) == 0.0 <==> a == Zero
  {
    DotSelfNonNegative(a);
    SqrtZeroIff(m, Dot(a, a));
  }

  lemma NormNeg(m: Math, a: Vec3)
    ensures Norm(m, Neg(a)) == Norm(m, a)
  {
    assert Dot(Neg(a), Neg(a)) == Dot(a, a);
  }
}
