/**
 * The capped-cylinder crossings of the shield tests, worked out on
 * concrete rays: side to side, end to end along the axis, and a ray that
 * leaves through the rim of an end disk, where the written routine raises.
 * Each step is a small lemma over variables; the concrete values meet only
 * in the lemmas that put the steps together.
 */
module CylinderExamples {
  import opened Wrappers
  import opened RealMath
  import opened Vectors
  import opened ExtReals
  import opened Rays
  import opened Geometry
  import opened Quadratics
  import opened Crossings
  import opened Cylinders
  import Annuli

  const ZAxis := Vec3(0.0, 0.0, 1.0)

  /** The part of `u` across the z axis keeps its x and y. */
  lemma AcrossZ(u: Vec3)
    ensures Annuli.Across(u, ZAxis) == Vec3(u.x, u.y, 0.0)
  {
  }

  /** The side quadratic of a cylinder about a line parallel to the z axis through (0, 0, z). */
  lemma AboutZ(ray: RayState, o: Vec3, r: real)
    requires o.x == 0.0 && o.y == 0.0
    ensures var d, w := ray.dir, ray.origin;
      Annuli.SideQuadratic(ray, o, ZAxis, r) ==
      Quadratic(d.x * d.x + d.y * d.y, 2.0 * (d.x * w.x + d.y * w.y), w.x * w.x + w.y * w.y - r * r)
  {
    AcrossZ(ray.dir);
    AcrossZ(Sub(ray.origin, o));
  }

  /** The axial position in a cylinder along the z axis is the height above its start disk. */
  lemma AxialZ(c: Cylinder, p: Vec3)
    requires c.dir == ZAxis
    ensures Axial(c, p) == p.z - c.origin.z
  {
  }

  /** A point of a ray, coordinate by coordinate. */
  lemma PointAtIs(ray: RayState, t: real)
    ensures PointAt(ray, t) == Vec3(ray.origin.x + ray.dir.x * t, ray.origin.y + ray.dir.y * t, ray.origin.z + ray.dir.z * t)
  {
    var p := PointAt(ray, t);
    assert p.x == ray.origin.x + ray.dir.x * t;
    assert p.y == ray.origin.y + ray.dir.y * t;
    assert p.z == ray.origin.z + ray.dir.z * t;
  }

  /** The point of a ray at `t` is `p` when each coordinate agrees. */
  lemma PointAtValue(ray: RayState, t: real, p: Vec3)
    requires ray.origin.x + ray.dir.x * t == p.x && ray.origin.y + ray.dir.y * t == p.y && ray.origin.z + ray.dir.z * t == p.z
    ensures PointAt(ray, t) == p
  {
    PointAtIs(ray, t);
  }

  /** Dot products with the z axis pick out the z component. */
  lemma DotZ(u: Vec3)
    ensures Dot(ZAxis, u) == u.z && Dot(u, ZAxis) == u.z
  {
  }

  /** A plane is met at the ratio of the two dot products of `LinePlaneCollision`. */
  lemma Collision(normal: Vec3, center: Vec3, origin: Vec3, u: Vec3, nd: real, wd: real)
    requires Dot(normal, u) == nd && Dot(Sub(center, origin), normal) == wd && ParallelTolerance <= Abs(nd)
    ensures LinePlaneCollision(normal, center, origin, u) == Some(wd / nd)
  {
  }

  /** A disk perpendicular to the z axis is met where the ray reaches its height. */
  lemma CapZ(ray: RayState, center: Vec3)
    requires ParallelTolerance <= Abs(ray.dir.z)
    ensures LinePlaneCollision(ZAxis, center, ray.origin, ray.dir) == Some((center.z - ray.origin.z) / ray.dir.z)
  {
    DotZ(ray.dir);
    DotZ(Sub(center, ray.origin));
    Collision(ZAxis, center, ray.origin, ray.dir, ray.dir.z, center.z - ray.origin.z);
  }

  /** The quotient `h / d` is `q` when `h` is `q` times `d`. */
  lemma QuotientIs(h: real, d: real, q: real)
    requires d != 0.0 && h == q * d
    ensures h / d == q
  {
    var f := h / d;
    assert f * d == h;
    assert (f - q) * d == 0.0;
    ProductZero(f - q, d);
  }

  /** A disk perpendicular to the z axis is met at `t` when the ray climbs from its start to the disk's height in `t`. */
  lemma CapZAt(ray: RayState, center: Vec3, t: real)
    requires ParallelTolerance <= Abs(ray.dir.z) && center.z - ray.origin.z == t * ray.dir.z
    ensures LinePlaneCollision(ZAxis, center, ray.origin, ray.dir) == Some(t)
  {
    CapZ(ray, center);
    QuotientIs(center.z - ray.origin.z, ray.dir.z, t);
  }

  /** A ray running flat across the z axis meets no disk perpendicular to it. */
  lemma NoCaps(ray: RayState, c: Cylinder)
    requires c.dir == ZAxis && ray.dir.z == 0.0
    ensures CapHits(ray, c, [c.origin, c.end]) == []
  {
    CapHitsPair(ray, c);
    assert Dot(c.dir, ray.dir) == 0.0;
  }

  /** The side hits of a ray whose side quadratic has known roots. */
  lemma SideHitsAre(m: Math, ray: RayState, c: Cylinder, q: Quadratic, lo: real, hi: real)
    requires Annuli.SideQuadratic(ray, c.origin, c.dir, c.radius) == q
    requires 0.0 < q.a && 0.0 < q.Discriminant() && LowRoot(m, q) == lo && HighRoot(m, q) == hi
    ensures SideHits(m, ray, c) == SideKept(ray, c, hi) + SideKept(ray, c, lo)
  {
    SideKeptPair(ray, c, hi, lo);
  }

  /** A side quadratic without two distinct roots gives no side hit. */
  lemma NoSideHits(m: Math, ray: RayState, c: Cylinder)
    requires Annuli.SideQuadratic(ray, c.origin, c.dir, c.radius).Discriminant() <= 0.0
    ensures SideHits(m, ray, c) == []
  {
  }

  /** The side hits from what is kept of each root. */
  lemma SideHitsFromRoots(m: Math, ray: RayState, c: Cylinder, q: Quadratic, lo: real, hi: real, high: seq<Vec3>, low: seq<Vec3>)
    requires Annuli.SideQuadratic(ray, c.origin, c.dir, c.radius) == q
    requires 0.0 < q.a && 0.0 < q.Discriminant() && LowRoot(m, q) == lo && HighRoot(m, q) == hi
    requires SideKept(ray, c, hi) == high && SideKept(ray, c, lo) == low
    ensures SideHits(m, ray, c) == high + low
  {
    SideHitsAre(m, ray, c, q, lo, hi);
  }

  /** The center of a disk of positive radius is strictly inside its rim. */
  lemma CenterInsideRim(c: Cylinder, center: Vec3, rr: real)
    requires c.radius * c.radius == rr && 0.0 < rr
    ensures InsideRim(c, center, center)
  {
    ZeroDot(Sub(center, center));
  }

  lemma ZeroDot(d: Vec3)
    requires d.x == 0.0 && d.y == 0.0 && d.z == 0.0
    ensures Dot(d, d) == 0.0
  {
  }

  /** A side root on the ray whose point lies between the end planes is kept. */
  lemma RootKept(ray: RayState, c: Cylinder, t: real, p: Vec3)
    requires PointAt(ray, t) == p && 0.0 <= t <= ray.length && 0.0 <= Axial(c, p) < c.length
    ensures SideKept(ray, c, t) == [p]
  {
  }

  /** A side root whose point is not below the end plane is dropped. */
  lemma RootDropped(ray: RayState, c: Cylinder, t: real, p: Vec3)
    requires PointAt(ray, t) == p && !(0.0 <= Axial(c, p) < c.length)
    ensures SideKept(ray, c, t) == []
  {
  }

  /** The ray meets the plane of the disk about `center` at `t`, at the point `p`. */
  predicate MeetsDiskPlane(ray: RayState, c: Cylinder, center: Vec3, t: real, p: Vec3)
  {
    LinePlaneCollision(c.dir, center, ray.origin, ray.dir) == Some(t) && PointAt(ray, t) == p
  }

  /** `p` is strictly inside the rim of the disk about `center`. */
  predicate InsideRim(c: Cylinder, center: Vec3, p: Vec3)
  {
    Dot(Sub(p, center), Sub(p, center)) < c.radius * c.radius
  }

  /** A disk hit on the ray strictly inside the rim is kept. */
  lemma CapKept(ray: RayState, c: Cylinder, center: Vec3, t: real, p: Vec3)
    requires MeetsDiskPlane(ray, c, center, t, p) && 0.0 <= t <= ray.length && InsideRim(c, center, p)
    ensures CapHit(ray, c, center) == [p]
  {
  }

  /** A disk hit that is not strictly inside the rim is dropped. */
  lemma CapDropped(ray: RayState, c: Cylinder, center: Vec3, t: real, p: Vec3)
    requires MeetsDiskPlane(ray, c, center, t, p) && !InsideRim(c, center, p)
    ensures CapHit(ray, c, center) == []
  {
  }

  /** Two side hits and no cap hit make the hits of the cylinder. */
  lemma TwoSideHits(m: Math, ray: RayState, c: Cylinder, p: Vec3, q: Vec3)
    requires SideHits(m, ray, c) == [p] + [q] && CapHits(ray, c, [c.origin, c.end]) == []
    ensures CylinderHits(m, ray, c) == [p, q]
  {
    assert [p] + [q] + [] == [p, q];
  }

  /** With two hits the written routine measures the distance between them. */
  lemma WrittenFromTwoHits(m: Math, ray: RayState, c: Cylinder, p: Vec3, q: Vec3, d: real)
    requires CylinderHits(m, ray, c) == [p, q] && Norm(m, Sub(p, q)) == d
    ensures CylinderCrossingAsWritten(m, ray, c) == Ok(d)
  {
  }

  /** With one hit and neither end inside, the written routine raises. */
  lemma WrittenFromOneHit(m: Math, ray: RayState, c: Cylinder, p: Vec3)
    requires CylinderHits(m, ray, c) == [p] && !CylinderContains(c, ray.origin) && !CylinderContains(c, ray.end)
    ensures CylinderCrossingAsWritten(m, ray, c) == Err(ValueError(TwoCrossings))
  {
  }

  /** The corrected crossing from the side span and the span between the end planes. */
  lemma CorrectedFromSpans(m: Math, ray: RayState, c: Cylinder, side: Span, h: real, k: real, slab: Span, d: real)
    requires SideSpan(m, Annuli.SideQuadratic(ray, c.origin, c.dir, c.radius)) == side
    requires Dot(Sub(ray.origin, c.origin), c.dir) == h && Dot(ray.dir, c.dir) == k && SlabSpan(h, k, c.length) == slab
    requires side.Meet(slab).Measure(ray.length) == d
    ensures CylinderCrossing(m, ray, c) == d
  {
  }

  /** A side quadratic with two roots is at most zero between them. */
  lemma SpanOfRoots(m: Math, q: Quadratic, lo: real, hi: real)
    requires 0.0 < q.a && 0.0 <= q.Discriminant() && LowRoot(m, q) == lo && HighRoot(m, q) == hi
    ensures SideSpan(m, q) == Between(lo, hi)
  {
  }

  /** One side hit and no cap hit make the hits of the cylinder. */
  lemma OneSideHit(m: Math, ray: RayState, c: Cylinder, p: Vec3)
    requires SideHits(m, ray, c) == [] + [p] && CapHits(ray, c, [c.origin, c.end]) == []
    ensures CylinderHits(m, ray, c) == [p]
  {
    assert [] + [p] + [] == [p];
  }

  /** No side hit and two cap hits make the hits of the cylinder. */
  lemma TwoCapHits(m: Math, ray: RayState, c: Cylinder, p: Vec3, q: Vec3)
    requires SideHits(m, ray, c) == [] && CapHits(ray, c, [c.origin, c.end]) == [p] + [q]
    ensures CylinderHits(m, ray, c) == [p, q]
  {
    assert [] + ([p] + [q]) == [p, q];
  }

  /** The shield of the capped-cylinder tests: from (0, 0, -50) to (0, 0, 50), radius 10. */
  predicate IsTestCylinder(c: Cylinder)
  {
    c.origin == Vec3(0.0, 0.0, -50.0) && c.end == Vec3(0.0, 0.0, 50.0) && c.length == 100.0 && c.dir == ZAxis && c.radius == 10.0
  }

  /** The ray from (-20, 0, 0) to (20, 0, 0), straight across the middle. */
  predicate IsAcrossRay(ray: RayState)
  {
    ray.origin == Vec3(-20.0, 0.0, 0.0) && ray.end == Vec3(20.0, 0.0, 0.0) && ray.length == 40.0 && ray.dir == Vec3(1.0, 0.0, 0.0)
  }

  lemma AcrossRoots(m: Math)
    requires m.sqrt(400.0) == 20.0
    ensures Quadratic(1.0, -40.0, 300.0).Discriminant() == 400.0
    ensures LowRoot(m, Quadratic(1.0, -40.0, 300.0)) == 10.0 && HighRoot(m, Quadratic(1.0, -40.0, 300.0)) == 30.0
  {
  }

  lemma AcrossQuadratic(m: Math, ray: RayState, c: Cylinder)
    requires m.sqrt(400.0) == 20.0 && IsAcrossRay(ray) && IsTestCylinder(c)
    ensures var q := Annuli.SideQuadratic(ray, c.origin, c.dir, c.radius);
      q == Quadratic(1.0, -40.0, 300.0) && q.Discriminant() == 400.0 &&
      LowRoot(m, q) == 10.0 && HighRoot(m, q) == 30.0
  {
    AboutZ(ray, c.origin, c.radius);
    AcrossRoots(m);
  }

  lemma AcrossSideHits(m: Math, ray: RayState, c: Cylinder)
    requires m.sqrt(400.0) == 20.0 && IsAcrossRay(ray) && IsTestCylinder(c)
    ensures SideHits(m, ray, c) == [Vec3(10.0, 0.0, 0.0)] + [Vec3(-10.0, 0.0, 0.0)]
  {
    AcrossQuadratic(m, ray, c);
    SideHitsAre(m, ray, c, Quadratic(1.0, -40.0, 300.0), 10.0, 30.0);
    PointAtIs(ray, 30.0);
    PointAtIs(ray, 10.0);
    AxialZ(c, Vec3(10.0, 0.0, 0.0));
    AxialZ(c, Vec3(-10.0, 0.0, 0.0));
    RootKept(ray, c, 30.0, Vec3(10.0, 0.0, 0.0));
    RootKept(ray, c, 10.0, Vec3(-10.0, 0.0, 0.0));
  }

  lemma AcrossHits(m: Math, ray: RayState, c: Cylinder)
    requires m.sqrt(400.0) == 20.0 && IsAcrossRay(ray) && IsTestCylinder(c)
    ensures CylinderHits(m, ray, c) == [Vec3(10.0, 0.0, 0.0), Vec3(-10.0, 0.0, 0.0)]
  {
    AcrossSideHits(m, ray, c);
    NoCaps(ray, c);
    TwoSideHits(m, ray, c, Vec3(10.0, 0.0, 0.0), Vec3(-10.0, 0.0, 0.0));
  }

  lemma DiameterNorm(m: Math)
    requires m.sqrt(400.0) == 20.0
    ensures Norm(m, Sub(Vec3(10.0, 0.0, 0.0), Vec3(-10.0, 0.0, 0.0))) == 20.0
  {
    assert Sub(Vec3(10.0, 0.0, 0.0), Vec3(-10.0, 0.0, 0.0)) == Vec3(20.0, 0.0, 0.0);
  }

  lemma AcrossWritten(m: Math, ray: RayState, c: Cylinder)
    requires m.sqrt(400.0) == 20.0 && IsAcrossRay(ray) && IsTestCylinder(c)
    ensures CylinderCrossingAsWritten(m, ray, c) == Ok(20.0)
  {
    AcrossHits(m, ray, c);
    DiameterNorm(m);
    WrittenFromTwoHits(m, ray, c, Vec3(10.0, 0.0, 0.0), Vec3(-10.0, 0.0, 0.0), 20.0);
  }

  lemma AcrossTerms(m: Math, ray: RayState, c: Cylinder)
    requires m.sqrt(400.0) == 20.0 && IsAcrossRay(ray) && IsTestCylinder(c)
    ensures SideSpan(m, Annuli.SideQuadratic(ray, c.origin, c.dir, c.radius)) == Between(10.0, 30.0)
    ensures Dot(Sub(ray.origin, c.origin), c.dir) == 50.0 && Dot(ray.dir, c.dir) == 0.0
  {
    AcrossQuadratic(m, ray, c);
    SpanOfRoots(m, Quadratic(1.0, -40.0, 300.0), 10.0, 30.0);
    DotZ(ray.dir);
    DotZ(Sub(ray.origin, c.origin));
  }

  lemma AcrossMeasure()
    ensures SlabSpan(50.0, 0.0, 100.0) == Everywhere
    ensures Between(10.0, 30.0).Meet(Everywhere).Measure(40.0) == 20.0
  {
  }

  /** Side to side through the middle: both the written routine and the corrected one measure the diameter, 20. */
  lemma CrossingAcross(m: Math, ray: RayState, c: Cylinder)
    requires m.sqrt(400.0) == 20.0 && IsAcrossRay(ray) && IsTestCylinder(c)
    ensures CylinderCrossingAsWritten(m, ray, c) == Ok(20.0)
    ensures CylinderCrossing(m, ray, c) == 20.0
  {
    AcrossWritten(m, ray, c);
    AcrossTerms(m, ray, c);
    AcrossMeasure();
    CorrectedFromSpans(m, ray, c, Between(10.0, 30.0), 50.0, 0.0, Everywhere, 20.0);
  }

  /** The ray from (0, 0, -60) to (0, 0, 60), along the axis from beyond one end to beyond the other. */
  predicate IsAlongAxisRay(ray: RayState)
  {
    ray.origin == Vec3(0.0, 0.0, -60.0) && ray.end == Vec3(0.0, 0.0, 60.0) && ray.length == 120.0 && ray.dir == ZAxis
  }

  lemma AlongAxisQuadratic(ray: RayState, c: Cylinder)
    requires IsAlongAxisRay(ray) && IsTestCylinder(c)
    ensures Annuli.SideQuadratic(ray, c.origin, c.dir, c.radius) == Quadratic(0.0, 0.0, -100.0)
  {
    AboutZ(ray, c.origin, c.radius);
  }

  lemma FlatDiscriminant()
    ensures Quadratic(0.0, 0.0, -100.0).Discriminant() == 0.0
  {
  }

  lemma AlongAxisDiscriminant(ray: RayState, c: Cylinder)
    requires IsAlongAxisRay(ray) && IsTestCylinder(c)
    ensures Annuli.SideQuadratic(ray, c.origin, c.dir, c.radius).Discriminant() == 0.0
  {
    AlongAxisQuadratic(ray, c);
    FlatDiscriminant();
  }

  lemma AlongAxisSideHits(m: Math, ray: RayState, c: Cylinder)
    requires IsAlongAxisRay(ray) && IsTestCylinder(c)
    ensures SideHits(m, ray, c) == []
  {
    AlongAxisDiscriminant(ray, c);
    NoSideHits(m, ray, c);
  }

  lemma AlongAxisCollisions(ray: RayState, c: Cylinder)
    requires IsAlongAxisRay(ray) && IsTestCylinder(c)
    ensures LinePlaneCollision(c.dir, c.origin, ray.origin, ray.dir) == Some(10.0)
    ensures LinePlaneCollision(c.dir, c.end, ray.origin, ray.dir) == Some(110.0)
  {
    CapZ(ray, c.origin);
    CapZ(ray, c.end);
  }

  lemma AlongAxisPoints(ray: RayState)
    requires IsAlongAxisRay(ray)
    ensures PointAt(ray, 10.0) == Vec3(0.0, 0.0, -50.0) && PointAt(ray, 110.0) == Vec3(0.0, 0.0, 50.0)
  {
    PointAtValue(ray, 10.0, Vec3(0.0, 0.0, -50.0));
    PointAtValue(ray, 110.0, Vec3(0.0, 0.0, 50.0));
  }

  lemma TestRadiusSquared(c: Cylinder)
    requires IsTestCylinder(c)
    ensures c.radius * c.radius == 100.0
  {
  }

  lemma AlongAxisMeetsDisks(ray: RayState, c: Cylinder)
    requires IsAlongAxisRay(ray) && IsTestCylinder(c)
    ensures MeetsDiskPlane(ray, c, c.origin, 10.0, Vec3(0.0, 0.0, -50.0))
    ensures MeetsDiskPlane(ray, c, c.end, 110.0, Vec3(0.0, 0.0, 50.0))
  {
    AlongAxisCollisions(ray, c);
    AlongAxisPoints(ray);
  }

  lemma AlongAxisInsideRims(c: Cylinder)
    requires IsTestCylinder(c)
    ensures InsideRim(c, c.origin, Vec3(0.0, 0.0, -50.0)) && InsideRim(c, c.end, Vec3(0.0, 0.0, 50.0))
  {
    TestRadiusSquared(c);
    CenterInsideRim(c, c.origin, 100.0);
    CenterInsideRim(c, c.end, 100.0);
  }

  lemma AlongAxisCapFacts(ray: RayState, c: Cylinder)
    requires IsAlongAxisRay(ray) && IsTestCylinder(c)
    ensures MeetsDiskPlane(ray, c, c.origin, 10.0, Vec3(0.0, 0.0, -50.0)) && InsideRim(c, c.origin, Vec3(0.0, 0.0, -50.0))
    ensures MeetsDiskPlane(ray, c, c.end, 110.0, Vec3(0.0, 0.0, 50.0)) && InsideRim(c, c.end, Vec3(0.0, 0.0, 50.0))
    ensures 0.0 <= 10.0 <= ray.length && 0.0 <= 110.0 <= ray.length
  {
    AlongAxisMeetsDisks(ray, c);
    AlongAxisInsideRims(c);
  }

  lemma AlongAxisStartCap(ray: RayState, c: Cylinder)
    requires IsAlongAxisRay(ray) && IsTestCylinder(c)
    ensures CapHit(ray, c, c.origin) == [Vec3(0.0, 0.0, -50.0)]
  {
    AlongAxisCapFacts(ray, c);
    CapKept(ray, c, c.origin, 10.0, Vec3(0.0, 0.0, -50.0));
  }

  lemma AlongAxisEndCap(ray: RayState, c: Cylinder)
    requires IsAlongAxisRay(ray) && IsTestCylinder(c)
    ensures CapHit(ray, c, c.end) == [Vec3(0.0, 0.0, 50.0)]
  {
    AlongAxisCapFacts(ray, c);
    CapKept(ray, c, c.end, 110.0, Vec3(0.0, 0.0, 50.0));
  }

  lemma AlongAxisCapHits(ray: RayState, c: Cylinder)
    requires IsAlongAxisRay(ray) && IsTestCylinder(c)
    ensures CapHits(ray, c, [c.origin, c.end]) == [Vec3(0.0, 0.0, -50.0)] + [Vec3(0.0, 0.0, 50.0)]
  {
    CapHitsPair(ray, c);
    AlongAxisStartCap(ray, c);
    AlongAxisEndCap(ray, c);
  }

  lemma AlongAxisHits(m: Math, ray: RayState, c: Cylinder)
    requires IsAlongAxisRay(ray) && IsTestCylinder(c)
    ensures CylinderHits(m, ray, c) == [Vec3(0.0, 0.0, -50.0), Vec3(0.0, 0.0, 50.0)]
  {
    AlongAxisSideHits(m, ray, c);
    AlongAxisCapHits(ray, c);
    TwoCapHits(m, ray, c, Vec3(0.0, 0.0, -50.0), Vec3(0.0, 0.0, 50.0));
  }

  lemma LengthNorm(m: Math)
    requires m.sqrt(10000.0) == 100.0
    ensures Norm(m, Sub(Vec3(0.0, 0.0, -50.0), Vec3(0.0, 0.0, 50.0))) == 100.0
  {
    assert Sub(Vec3(0.0, 0.0, -50.0), Vec3(0.0, 0.0, 50.0)) == Vec3(0.0, 0.0, -100.0);
  }

  lemma AlongAxisWritten(m: Math, ray: RayState, c: Cylinder)
    requires m.sqrt(10000.0) == 100.0 && IsAlongAxisRay(ray) && IsTestCylinder(c)
    ensures CylinderCrossingAsWritten(m, ray, c) == Ok(100.0)
  {
    AlongAxisHits(m, ray, c);
    LengthNorm(m);
    WrittenFromTwoHits(m, ray, c, Vec3(0.0, 0.0, -50.0), Vec3(0.0, 0.0, 50.0), 100.0);
  }

  lemma AlongAxisTerms(m: Math, ray: RayState, c: Cylinder)
    requires IsAlongAxisRay(ray) && IsTestCylinder(c)
    ensures SideSpan(m, Annuli.SideQuadratic(ray, c.origin, c.dir, c.radius)) == Everywhere
    ensures Dot(Sub(ray.origin, c.origin), c.dir) == -10.0 && Dot(ray.dir, c.dir) == 1.0
  {
    AlongAxisQuadratic(ray, c);
    DotZ(ray.dir);
    DotZ(Sub(ray.origin, c.origin));
  }

  lemma AlongAxisMeasure()
    ensures SlabSpan(-10.0, 1.0, 100.0) == Between(10.0, 110.0)
    ensures Everywhere.Meet(Between(10.0, 110.0)).Measure(120.0) == 100.0
  {
  }

  /** End to end along the axis: both measure the length of the cylinder, 100. */
  lemma CrossingEndToEnd(m: Math, ray: RayState, c: Cylinder)
    requires m.sqrt(10000.0) == 100.0 && IsAlongAxisRay(ray) && IsTestCylinder(c)
    ensures CylinderCrossingAsWritten(m, ray, c) == Ok(100.0)
    ensures CylinderCrossing(m, ray, c) == 100.0
  {
    AlongAxisWritten(m, ray, c);
    AlongAxisTerms(m, ray, c);
    AlongAxisMeasure();
    CorrectedFromSpans(m, ray, c, Everywhere, -10.0, 1.0, Between(10.0, 110.0), 100.0);
  }

  /** A cylinder from (0, 0, 0) to (0, 0, 9) of radius 5. */
  predicate IsRimCylinder(c: Cylinder)
  {
    c.origin == Vec3(0.0, 0.0, 0.0) && c.end == Vec3(0.0, 0.0, 9.0) && c.length == 9.0 && c.dir == ZAxis && c.radius == 5.0
  }

  /**
   * The ray from (-11, 0, -3) to (9, 0, 12), direction (0.8, 0, 0.6):
   * it passes the start plane outside the rim at (-7, 0, 0), enters the
   * side of the rim cylinder at (-5, 0, 1.5) and leaves through the rim of
   * the end disk at (5, 0, 9).
   */
  predicate IsRimRay(ray: RayState)
  {
    ray.origin == Vec3(-11.0, 0.0, -3.0) && ray.end == Vec3(9.0, 0.0, 12.0) && ray.length == 25.0 && ray.dir == Vec3(0.8, 0.0, 0.6)
  }

  lemma RimRoots(m: Math)
    requires m.sqrt(64.0) == 8.0
    ensures Quadratic(0.64, -17.6, 96.0).Discriminant() == 64.0
    ensures LowRoot(m, Quadratic(0.64, -17.6, 96.0)) == 7.5 && HighRoot(m, Quadratic(0.64, -17.6, 96.0)) == 20.0
  {
  }

  lemma RimQuadratic(m: Math, ray: RayState, c: Cylinder)
    requires m.sqrt(64.0) == 8.0 && IsRimRay(ray) && IsRimCylinder(c)
    ensures var q := Annuli.SideQuadratic(ray, c.origin, c.dir, c.radius);
      q == Quadratic(0.64, -17.6, 96.0) && q.Discriminant() == 64.0 &&
      LowRoot(m, q) == 7.5 && HighRoot(m, q) == 20.0
  {
    AboutZ(ray, c.origin, c.radius);
    RimRoots(m);
  }

  lemma RimHighRoot(ray: RayState, c: Cylinder)
    requires IsRimRay(ray) && IsRimCylinder(c)
    ensures SideKept(ray, c, 20.0) == []
  {
    PointAtValue(ray, 20.0, Vec3(5.0, 0.0, 9.0));
    AxialZ(c, Vec3(5.0, 0.0, 9.0));
    RootDropped(ray, c, 20.0, Vec3(5.0, 0.0, 9.0));
  }

  lemma RimLowRoot(ray: RayState, c: Cylinder)
    requires IsRimRay(ray) && IsRimCylinder(c)
    ensures SideKept(ray, c, 7.5) == [Vec3(-5.0, 0.0, 1.5)]
  {
    PointAtValue(ray, 7.5, Vec3(-5.0, 0.0, 1.5));
    AxialZ(c, Vec3(-5.0, 0.0, 1.5));
    RootKept(ray, c, 7.5, Vec3(-5.0, 0.0, 1.5));
  }

  lemma RimSideHits(m: Math, ray: RayState, c: Cylinder)
    requires m.sqrt(64.0) == 8.0 && IsRimRay(ray) && IsRimCylinder(c)
    ensures SideHits(m, ray, c) == [] + [Vec3(-5.0, 0.0, 1.5)]
  {
    RimQuadratic(m, ray, c);
    RimHighRoot(ray, c);
    RimLowRoot(ray, c);
    SideHitsFromRoots(m, ray, c, Quadratic(0.64, -17.6, 96.0), 7.5, 20.0, [], [Vec3(-5.0, 0.0, 1.5)]);
  }

  /** A point level with the center of a disk, at least the radius away along x, is not strictly inside its rim. */
  lemma OnOrOutsideRim(c: Cylinder, p: Vec3, center: Vec3, dx: real)
    requires p.y == center.y && p.z == center.z && p.x - center.x == dx && c.radius * c.radius <= dx * dx
    ensures !InsideRim(c, center, p)
  {
    var d := Sub(p, center);
    assert d.y == 0.0 && d.z == 0.0 && d.x == dx;
  }

  lemma RimRadiusSquared(c: Cylinder)
    requires IsRimCylinder(c)
    ensures c.radius * c.radius == 25.0
  {
  }

  lemma RimStartCollision(ray: RayState, c: Cylinder)
    requires IsRimRay(ray) && IsRimCylinder(c)
    ensures LinePlaneCollision(c.dir, c.origin, ray.origin, ray.dir) == Some(5.0)
  {
    CapZAt(ray, c.origin, 5.0);
  }

  lemma RimStartPoint(ray: RayState)
    requires IsRimRay(ray)
    ensures PointAt(ray, 5.0) == Vec3(-7.0, 0.0, 0.0)
  {
    PointAtValue(ray, 5.0, Vec3(-7.0, 0.0, 0.0));
  }

  lemma RimMeetsStartDisk(ray: RayState, c: Cylinder)
    requires IsRimRay(ray) && IsRimCylinder(c)
    ensures MeetsDiskPlane(ray, c, c.origin, 5.0, Vec3(-7.0, 0.0, 0.0))
  {
    RimStartCollision(ray, c);
    RimStartPoint(ray);
  }

  lemma RimMeetsEndDisk(ray: RayState, c: Cylinder)
    requires IsRimRay(ray) && IsRimCylinder(c)
    ensures MeetsDiskPlane(ray, c, c.end, 20.0, Vec3(5.0, 0.0, 9.0))
  {
    CapZAt(ray, c.end, 20.0);
    PointAtValue(ray, 20.0, Vec3(5.0, 0.0, 9.0));
  }

  lemma RimStartOutsideRim(c: Cylinder)
    requires IsRimCylinder(c)
    ensures !InsideRim(c, c.origin, Vec3(-7.0, 0.0, 0.0))
  {
    RimRadiusSquared(c);
    OnOrOutsideRim(c, Vec3(-7.0, 0.0, 0.0), c.origin, -7.0);
  }

  lemma RimEndOutsideRim(c: Cylinder)
    requires IsRimCylinder(c)
    ensures !InsideRim(c, c.end, Vec3(5.0, 0.0, 9.0))
  {
    RimRadiusSquared(c);
    OnOrOutsideRim(c, Vec3(5.0, 0.0, 9.0), c.end, 5.0);
  }

  lemma RimStartCap(ray: RayState, c: Cylinder)
    requires IsRimRay(ray) && IsRimCylinder(c)
    ensures CapHit(ray, c, c.origin) == []
  {
    RimMeetsStartDisk(ray, c);
    RimStartOutsideRim(c);
    CapDropped(ray, c, c.origin, 5.0, Vec3(-7.0, 0.0, 0.0));
  }

  lemma RimEndCap(ray: RayState, c: Cylinder)
    requires IsRimRay(ray) && IsRimCylinder(c)
    ensures CapHit(ray, c, c.end) == []
  {
    RimMeetsEndDisk(ray, c);
    RimEndOutsideRim(c);
    CapDropped(ray, c, c.end, 20.0, Vec3(5.0, 0.0, 9.0));
  }

  lemma RimCapHits(ray: RayState, c: Cylinder)
    requires IsRimRay(ray) && IsRimCylinder(c)
    ensures CapHits(ray, c, [c.origin, c.end]) == []
  {
    CapHitsPair(ray, c);
    RimStartCap(ray, c);
    RimEndCap(ray, c);
  }

  /** A point before the start plane or beyond the end plane is not in the cylinder. */
  lemma OutsideAxially(c: Cylinder, p: Vec3)
    requires Axial(c, p) < 0.0 || c.length < Axial(c, p)
    ensures !CylinderContains(c, p)
  {
  }

  lemma RimEndsOutside(ray: RayState, c: Cylinder)
    requires IsRimRay(ray) && IsRimCylinder(c)
    ensures !CylinderContains(c, ray.origin) && !CylinderContains(c, ray.end)
  {
    AxialZ(c, ray.origin);
    AxialZ(c, ray.end);
    OutsideAxially(c, ray.origin);
    OutsideAxially(c, ray.end);
  }

  lemma RimWritten(m: Math, ray: RayState, c: Cylinder)
    requires m.sqrt(64.0) == 8.0 && IsRimRay(ray) && IsRimCylinder(c)
    ensures CylinderCrossingAsWritten(m, ray, c) == Err(ValueError(TwoCrossings))
  {
    RimSideHits(m, ray, c);
    RimCapHits(ray, c);
    OneSideHit(m, ray, c, Vec3(-5.0, 0.0, 1.5));
    RimEndsOutside(ray, c);
    WrittenFromOneHit(m, ray, c, Vec3(-5.0, 0.0, 1.5));
  }

  lemma RimTerms(m: Math, ray: RayState, c: Cylinder)
    requires m.sqrt(64.0) == 8.0 && IsRimRay(ray) && IsRimCylinder(c)
    ensures SideSpan(m, Annuli.SideQuadratic(ray, c.origin, c.dir, c.radius)) == Between(7.5, 20.0)
    ensures Dot(Sub(ray.origin, c.origin), c.dir) == -3.0 && Dot(ray.dir, c.dir) == 0.6
  {
    RimQuadratic(m, ray, c);
    SpanOfRoots(m, Quadratic(0.64, -17.6, 96.0), 7.5, 20.0);
    DotZ(ray.dir);
    DotZ(Sub(ray.origin, c.origin));
  }

  lemma RimMeasure()
    ensures SlabSpan(-3.0, 0.6, 9.0) == Between(5.0, 20.0)
    ensures Between(7.5, 20.0).Meet(Between(5.0, 20.0)).Measure(25.0) == 12.5
  {
  }

  lemma RimCorrected(m: Math, ray: RayState, c: Cylinder)
    requires m.sqrt(64.0) == 8.0 && IsRimRay(ray) && IsRimCylinder(c)
    ensures CylinderCrossing(m, ray, c) == 12.5
  {
    RimTerms(m, ray, c);
    RimMeasure();
    CorrectedFromSpans(m, ray, c, Between(7.5, 20.0), -3.0, 0.6, Between(5.0, 20.0), 12.5);
  }

  /**
   * The ray through the rim: the side test drops the exit because its
   * axial position is not below the length, the cap test drops it because
   * it is not strictly inside the rim, neither end is inside, and the
   * single crossing left raises.  The corrected crossing is the 12.5 from
   * (-5, 0, 1.5) to (5, 0, 9).
   */
  lemma RimRaises(m: Math, ray: RayState, c: Cylinder)
    requires m.sqrt(64.0) == 8.0 && IsRimRay(ray) && IsRimCylinder(c)
    ensures CylinderCrossingAsWritten(m, ray, c) == Err(ValueError(TwoCrossings))
    ensures CylinderCrossing(m, ray, c) == 12.5
  {
    RimWritten(m, ray, c);
    RimCorrected(m, ray, c);
  }
}
