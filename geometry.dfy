/**
 * The solid bodies of the shields, their closed-solid containment tests,
 * and the ray-geometry facts the crossing-length routines share.
 */
module Geometry {
  import opened Wrappers
  import opened RealMath
  import opened Vectors
  import opened ExtReals
  import opened Rays

  /** The point at parameter `t` along a ray, `origin + dir * t`. */
  function PointAt(ray: RayState, t: real): Vec3
  {
    Add(ray.origin, Scale(ray.dir, t))
  }

  /**
   * The facts about a ray's fields that the crossing routines rely on: a
   * non-negative length, a unit direction (the zero vector for a
   * zero-length ray), and the end reached after `length` along it.
   */
  predicate Regular(ray: RayState)
  {
    0.0 <= ray.length &&
    (ray.length == 0.0 ==> ray.dir == Zero) &&
    (ray.length != 0.0 ==> Dot(ray.dir, ray.dir) == 1.0) &&
    PointAt(ray, ray.length) == ray.end
  }

  /** Every ray built from two points is regular. */
  lemma RayOfRegular(m: Math, start: Vec3, end: Vec3)
    requires m.SqrtExact()
    ensures Regular(RayOf(m, start, end))
    ensures RayOf(m, start, end).origin == start && RayOf(m, start, end).end == end
  {
    RayGeometry(m, start, end);
  }

  /** A scaled unit vector has the length of the scale factor. */
  lemma ScaledUnitNorm(m: Math, d: Vec3, k: real)
    requires m.SqrtOfSquares() && Dot(d, d) == 1.0
    ensures Norm(m, Scale(d, k)) == Abs(k)
  {
    var a := Abs(k);
    assert Dot(Scale(d, k), Scale(d, k)) == k * k * Dot(d, d);
    assert a * a == k * k;
    assert Dot(Scale(d, k), Scale(d, k)) == Square(a);
    assert m.sqrt(Square(a)) == a;
  }

  /**
   * Two points of a ray at parameters in [0, length] are |ta - tb| apart,
   * so never further apart than the ray is long.
   */
  lemma DistanceAlongRay(m: Math, ray: RayState, ta: real, tb: real)
    requires m.SqrtOfSquares() && Regular(ray)
    requires 0.0 <= ta <= ray.length && 0.0 <= tb <= ray.length
    ensures Norm(m, Sub(PointAt(ray, ta), PointAt(ray, tb))) == Abs(ta - tb)
    ensures Norm(m, Sub(PointAt(ray, ta), PointAt(ray, tb))) <= ray.length
  {
    PointDifference(ray, ta, tb);
    StepNorm(m, ray.dir, ta - tb);
  }

  /** A unit vector scaled by k, or any vector scaled by 0, has length |k|. */
  lemma StepNorm(m: Math, d: Vec3, k: real)
    requires m.SqrtOfSquares() && (Dot(d, d) == 1.0 || k == 0.0)
    ensures Norm(m, Scale(d, k)) == Abs(k)
  {
    if k == 0.0 {
      assert Scale(d, k) == Scale(Vec3(1.0, 0.0, 0.0), 0.0);
      ScaledUnitNorm(m, Vec3(1.0, 0.0, 0.0), 0.0);
    } else {
      ScaledUnitNorm(m, d, k);
    }
  }

  /** The step between two points of a ray is the direction scaled by the difference of parameters. */
  lemma PointDifference(ray: RayState, ta: real, tb: real)
    ensures Sub(PointAt(ray, ta), PointAt(ray, tb)) == Scale(ray.dir, ta - tb)
  {
    var d := ray.dir;
    assert d.x * ta - d.x * tb == d.x * (ta - tb);
    assert d.y * ta - d.y * tb == d.y * (ta - tb);
    assert d.z * ta - d.z * tb == d.z * (ta - tb);
  }

  /** The ray's start is its point at 0. */
  lemma OriginOnRay(ray: RayState)
    ensures PointAt(ray, 0.0) == ray.origin
  {
    assert Scale(ray.dir, 0.0) == Zero;
  }

  /** A ray parallel to the x axis from x = a to x = b has length |b - a| and direction (+1 or -1, 0, 0). */
  lemma XRay(m: Math, a: real, b: real, y: real, z: real)
    requires m.SqrtOfSquares() && a != b
    ensures var ray := RayOf(m, Vec3(a, y, z), Vec3(b, y, z));
      ray.origin == Vec3(a, y, z) && ray.end == Vec3(b, y, z) && ray.length == Abs(b - a) &&
      ray.dir == Vec3(if a < b then 1.0 else -1.0, 0.0, 0.0)
  {
    var v := Vec3(b - a, 0.0, 0.0);
    assert Sub(Vec3(b, y, z), Vec3(a, y, z)) == v;
    var l := Abs(b - a);
    var e := if a < b then 1.0 else -1.0;
    assert b - a == e * l;
    assert Dot(v, v) == Square(l);
    assert m.sqrt(Square(l)) == l;
    assert Norm(m, v) == l;
    UnitQuotient(b - a, l, e);
    assert DivScalar(v, l) == Vec3(e, 0.0, 0.0);
  }

  /**
   * A ray parallel to the x axis, x = a + e t with e = 1 or -1, as the ray
   * constructor derives it: infinite inverse direction on y and z.
   */
  predicate OnXAxis(ray: RayState, a: real, e: real, y: real, z: real)
  {
    && (e == 1.0 || e == -1.0)
    && ray.origin == Vec3(a, y, z)
    && ray.dir == Vec3(e, 0.0, 0.0)
    && ray.invdir == ExtVec3(Fin(e), PosInf, PosInf)
    && ray.sign == [if e < 0.0 then 1 else 0, 0, 0]
  }

  /** The ray from (a, y, z) to (c, y, z) runs along the x axis. */
  lemma RayOfOnXAxis(m: Math, a: real, c: real, y: real, z: real)
    requires m.SqrtOfSquares() && a != c
    ensures var ray := RayOf(m, Vec3(a, y, z), Vec3(c, y, z));
      OnXAxis(ray, a, if a < c then 1.0 else -1.0, y, z) && ray.length == Abs(c - a) && Regular(ray)
  {
    XRay(m, a, c, y, z);
    var ray := RayOf(m, Vec3(a, y, z), Vec3(c, y, z));
    var e := if a < c then 1.0 else -1.0;
    assert ray.dir == Vec3(e, 0.0, 0.0);
    DerivedOnXAxis(ray, e);
    assert PointAt(ray, ray.length) == ray.end by {
      assert c - a == e * Abs(c - a);
    }
  }

  /** The ray from (a, y, z) to (c, y, z) with a < c, as the ray constructor derives it. */
  function AlongX(a: real, c: real, y: real, z: real): RayState
  {
    RayState(Vec3(a, y, z), Vec3(c, y, z), c - a, Vec3(1.0, 0.0, 0.0), ExtVec3(Fin(1.0), PosInf, PosInf), [0, 0, 0])
  }

  /** The ray from (a, y, z) to (c, y, z) with c < a. */
  function AgainstX(a: real, c: real, y: real, z: real): RayState
  {
    RayState(Vec3(a, y, z), Vec3(c, y, z), a - c, Vec3(-1.0, 0.0, 0.0), ExtVec3(Fin(-1.0), PosInf, PosInf), [1, 0, 0])
  }

  lemma RayOfAlongX(m: Math, a: real, c: real, y: real, z: real)
    requires m.SqrtOfSquares() && a < c
    ensures RayOf(m, Vec3(a, y, z), Vec3(c, y, z)) == AlongX(a, c, y, z)
  {
    RayOfOnXAxis(m, a, c, y, z);
  }

  lemma RayOfAgainstX(m: Math, a: real, c: real, y: real, z: real)
    requires m.SqrtOfSquares() && c < a
    ensures RayOf(m, Vec3(a, y, z), Vec3(c, y, z)) == AgainstX(a, c, y, z)
  {
    RayOfOnXAxis(m, a, c, y, z);
  }

  /** The inverse direction and sign of the direction (e, 0, 0). */
  lemma DerivedOnXAxis(ray: RayState, e: real)
    requires e == 1.0 || e == -1.0
    requires ray.dir == Vec3(e, 0.0, 0.0)
    requires ray.invdir == ExtVec3(Recip(ray.dir.x), Recip(ray.dir.y), Recip(ray.dir.z))
    requires ray.sign == [SignOf(ray.invdir.x), SignOf(ray.invdir.y), SignOf(ray.invdir.z)]
    ensures ray.invdir == ExtVec3(Fin(e), PosInf, PosInf)
    ensures ray.sign == [if e < 0.0 then 1 else 0, 0, 0]
  {
    assert 1.0 / e == e;
  }

  /** A ray parallel to the z axis from z = a to z = b has length |b - a| and direction (0, 0, +1 or -1). */
  lemma ZRay(m: Math, x: real, y: real, a: real, b: real)
    requires m.SqrtOfSquares() && a != b
    ensures var ray := RayOf(m, Vec3(x, y, a), Vec3(x, y, b));
      ray.origin == Vec3(x, y, a) && ray.end == Vec3(x, y, b) && ray.length == Abs(b - a) &&
      ray.dir == Vec3(0.0, 0.0, if a < b then 1.0 else -1.0)
  {
    var v := Vec3(0.0, 0.0, b - a);
    assert Sub(Vec3(x, y, b), Vec3(x, y, a)) == v;
    var l := Abs(b - a);
    var e := if a < b then 1.0 else -1.0;
    assert b - a == e * l;
    assert Dot(v, v) == Square(l);
    assert m.sqrt(Square(l)) == l;
    assert Norm(m, v) == l;
    UnitQuotient(b - a, l, e);
    assert DivScalar(v, l) == Vec3(0.0, 0.0, e);
  }

  lemma UnitQuotient(x: real, l: real, e: real)
    requires l != 0.0 && x == e * l
    ensures x / l == e
  {
  }

  /**
   * The length of the part of the parameter interval [t0, t1] that lies
   * on the ray, [0, length]: what every crossing-length routine measures.
   */
  function Overlap(t0: real, t1: real, length: real): real
  {
    Max(0.0, Min(t1, length) - Max(t0, 0.0))
  }

  /**
   * The two boundary cases the written endpoint bookkeeping of the sphere,
   * the box and the cylinder gets wrong: the entry at the ray's start with
   * the exit beyond its end, or the exit at the ray's end with the entry
   * before its start.
   */
  predicate RootAtEndpoint(lo: real, hi: real, length: real)
  {
    (lo == 0.0 && hi > length) || (lo < 0.0 && hi == length)
  }

  /** The overlap is the same when [0, length] is walked backwards. */
  lemma OverlapMirror(t0: real, t1: real, length: real)
    ensures Overlap(length - t1, length - t0, length) == Overlap(t0, t1, length)
  {
  }

  /** The tolerance below which a ray counts as parallel to a plane. */
  const ParallelTolerance: real := 0.000001

  /**
   * The parameter at which the line `origin + u * t` meets the plane
   * through `point` with normal `normal`; None when the line is parallel
   * to the plane within the tolerance.
   */
  function LinePlaneCollision(normal: Vec3, point: Vec3, origin: Vec3, u: Vec3): (r: Option<real>)
    ensures r.None? <==> Abs(Dot(normal, u)) < ParallelTolerance
    ensures r.Some? ==> Dot(Sub(Add(origin, Scale(u, r.value)), point), normal) == 0.0
  {
    var ndotu := Dot(normal, u);
    if Abs(ndotu) < ParallelTolerance then None
    else
      var w := Sub(point, origin);
      var t := Dot(w, normal) / ndotu;
      assert Dot(Sub(Add(origin, Scale(u, t)), point), normal) == t * ndotu - Dot(w, normal);
      assert t * ndotu == Dot(w, normal);
      Some(t)
  }

  /**
   * The leading coefficient `a = u.u` of the ray quadratics is never
   * negative, and when it is zero so is `b = 2 u.w`: a positive
   * discriminant therefore means a positive `a`.
   */
  lemma ZeroLeading(u: Vec3, w: Vec3)
    ensures 0.0 <= Dot(u, u)
    ensures Dot(u, u) == 0.0 ==> Dot(u, w) == 0.0
  {
    DotSelfNonNegative(u);
    if Dot(u, u) == 0.0 {
      assert u.x == 0.0 && u.y == 0.0 && u.z == 0.0;
      ZeroDot(u, w);
    }
  }

  lemma ZeroDot(u: Vec3, w: Vec3)
    requires u.x == 0.0 && u.y == 0.0 && u.z == 0.0
    ensures Dot(u, w) == 0.0
  {
  }

  /** A sphere of the given center and radius. */
  datatype Sphere = Sphere(center: Vec3, radius: real)

  /** `Sphere._contains`: the squared distance to the center is at most radius squared. */
  predicate SphereContains(s: Sphere, p: Vec3)
  {
    !(Dot(Sub(p, s.center), Sub(p, s.center)) > s.radius * s.radius)
  }

  /** A sphere contains exactly the points no further from its center than its radius. */
  lemma SphereContainsDistance(m: Math, s: Sphere, p: Vec3)
    requires m.SqrtExact() && 0.0 <= s.radius
    ensures SphereContains(s, p) <==> Norm(m, Sub(p, s.center)) <= s.radius
  {
    var v := Sub(p, s.center);
    var n, d, r := Norm(m, v), Dot(v, v), s.radius;
    NormProperties(m, v);
    assert n * n == d;
    SqrtOfSquare(m, r);
    if d <= r * r {
      SqrtMonotone(m, d, r * r);
    } else {
      SqrtMonotone(m, r * r, d);
      assert n != r;
    }
  }

  /** An axis-aligned box given by its center and its edge lengths. */
  datatype Box = Box(center: Vec3, dimensions: Vec3)
  {
    /** The corner with the smallest coordinates, `center - dimensions / 2`. */
    function Low(): Vec3 { Sub(center, DivScalar(dimensions, 2.0)) }

    /** The corner with the largest coordinates, `center + dimensions / 2`. */
    function High(): Vec3 { Add(center, DivScalar(dimensions, 2.0)) }
  }

  /** `Box._contains`: inclusive on all six faces. */
  predicate BoxContains(b: Box, p: Vec3)
  {
    b.Low().x <= p.x <= b.High().x &&
    b.Low().y <= p.y <= b.High().y &&
    b.Low().z <= p.z <= b.High().z
  }

  /** A box contains exactly the points within half an edge of its center along each axis. */
  lemma BoxContainsHalfWidths(b: Box, p: Vec3)
    ensures BoxContains(b, p) <==>
      Abs(p.x - b.center.x) <= b.dimensions.x / 2.0 &&
      Abs(p.y - b.center.y) <= b.dimensions.y / 2.0 &&
      Abs(p.z - b.center.z) <= b.dimensions.z / 2.0
  {
  }

  /** An infinitely long annulus: a point on its axis, the unit axis, and two radii. */
  datatype Annulus = Annulus(origin: Vec3, dir: Vec3, innerRadius: real, outerRadius: real)

  /** The vector from `p` to its foot on the axis through `origin` along `dir`. */
  function RadialOffset(origin: Vec3, dir: Vec3, p: Vec3): Vec3
  {
    Sub(Add(origin, Scale(dir, Dot(Sub(p, origin), dir))), p)
  }

  /** `InfiniteAnnulus._contains`: inner radius squared <= squared radial distance <= outer radius squared. */
  predicate AnnulusContains(a: Annulus, p: Vec3)
  {
    var q := RadialOffset(a.origin, a.dir, p);
    !(Dot(q, q) < a.innerRadius * a.innerRadius) && !(Dot(q, q) > a.outerRadius * a.outerRadius)
  }

  /** Pythagoras: the squared radial distance is the squared distance less the squared axial distance. */
  lemma RadialDistance(origin: Vec3, dir: Vec3, p: Vec3)
    requires Dot(dir, dir) == 1.0
    ensures var q := RadialOffset(origin, dir, p);
      var v := Sub(p, origin);
      Dot(q, q) == Dot(v, v) - Dot(v, dir) * Dot(v, dir)
  {
    var v := Sub(p, origin);
    var s := Dot(v, dir);
    var q := RadialOffset(origin, dir, p);
    assert q == Sub(Scale(dir, s), v);
    assert Dot(q, q) == s * s * Dot(dir, dir) - 2.0 * s * Dot(v, dir) + Dot(v, v);
  }

  /** An annulus contains the points whose distance from the axis lies between its radii. */
  lemma AnnulusContainsRadius(a: Annulus, p: Vec3)
    requires Dot(a.dir, a.dir) == 1.0
    ensures var v := Sub(p, a.origin);
      AnnulusContains(a, p) <==>
        a.innerRadius * a.innerRadius <= Dot(v, v) - Dot(v, a.dir) * Dot(v, a.dir) <= a.outerRadius * a.outerRadius
  {
    RadialDistance(a.origin, a.dir, p);
  }

  /** A capped cylinder: the centers of its end disks, its length and unit axis, and its radius. */
  datatype Cylinder = Cylinder(origin: Vec3, end: Vec3, length: real, dir: Vec3, radius: real)

  /** `CappedCylinder._contains`: between the end planes and within the radius, boundaries included. */
  predicate CylinderContains(c: Cylinder, p: Vec3)
  {
    var axial := Dot(Sub(p, c.origin), c.dir);
    var q := RadialOffset(c.origin, c.dir, p);
    !(axial < 0.0 || axial > c.length) && !(Dot(q, q) > c.radius * c.radius)
  }

  /** A capped cylinder contains the points whose axial position lies in [0, length] and whose radial distance is at most its radius. */
  lemma CylinderContainsRadius(c: Cylinder, p: Vec3)
    requires Dot(c.dir, c.dir) == 1.0
    ensures var v := Sub(p, c.origin);
      CylinderContains(c, p) <==>
        0.0 <= Dot(v, c.dir) <= c.length &&
        Dot(v, v) - Dot(v, c.dir) * Dot(v, c.dir) <= c.radius * c.radius
  {
    RadialDistance(c.origin, c.dir, p);
  }
}
