/**
 * `InfiniteAnnulus`: the wall between two coaxial cylinders of infinite
 * length.  The intersection loop over the two radii, the crossing length
 * exactly as written (endpoints added, sorted, paired), and the corrected
 * length: the ray's part inside the outer cylinder less its part inside
 * the hole.
 */
module Annuli {
  import opened Wrappers
  import opened RealMath
  import opened Vectors
  import opened Rays
  import opened Geometry
  import opened Quadratics
  import opened Sorting
  import Spheres

  const ValidCrossings := "Shield doesn't have valid crossings"

  /** `InfiniteAnnulus.__init__`: the axis is stored divided by its norm. */
  function NewAnnulus(m: Math, origin: Vec3, axis: Vec3, innerRadius: real, outerRadius: real): (a: Annulus)
    requires Norm(m, axis) != 0.0
    ensures a.origin == origin && a.innerRadius == innerRadius && a.outerRadius == outerRadius
  {
    Annulus(origin, DivScalar(axis, Norm(m, axis)), innerRadius, outerRadius)
  }

  /** The stored axis is a unit vector pointing along the given one. */
  lemma NewAnnulusUnitAxis(m: Math, origin: Vec3, axis: Vec3, innerRadius: real, outerRadius: real)
    requires m.SqrtExact() && axis != Zero
    ensures Norm(m, axis) != 0.0
    ensures var a := NewAnnulus(m, origin, axis, innerRadius, outerRadius);
      Dot(a.dir, a.dir) == 1.0 && Scale(a.dir, Norm(m, axis)) == axis
  {
    NormProperties(m, axis);
    DirectionFacts(axis, Norm(m, axis));
  }

  /** `YAlignedInfiniteAnnulus`, `XAlignedInfiniteAnnulus`, `ZAlignedInfiniteAnnulus`: the axis along y, x or z. */
  function AlignedAnnulus(m: Math, center: Vec3, axis: nat, innerRadius: real, outerRadius: real): Annulus
    requires axis < 3 && m.SqrtOfSquares()
  {
    var unit := if axis == 0 then Vec3(1.0, 0.0, 0.0) else if axis == 1 then Vec3(0.0, 1.0, 0.0) else Vec3(0.0, 0.0, 1.0);
    assert Dot(unit, unit) == Square(1.0);
    NewAnnulus(m, center, unit, innerRadius, outerRadius)
  }

  /** An aligned annulus keeps its center and radii and has the coordinate axis itself as its direction. */
  lemma AlignedAnnulusAxis(m: Math, center: Vec3, axis: nat, innerRadius: real, outerRadius: real)
    requires axis < 3 && m.SqrtOfSquares()
    ensures var a := AlignedAnnulus(m, center, axis, innerRadius, outerRadius);
      a.origin == center && a.innerRadius == innerRadius && a.outerRadius == outerRadius &&
      a.dir == (if axis == 0 then Vec3(1.0, 0.0, 0.0) else if axis == 1 then Vec3(0.0, 1.0, 0.0) else Vec3(0.0, 0.0, 1.0))
  {
    assert m.sqrt(Square(1.0)) == 1.0;
  }

  /** `u` less its component along `d`, `u - (u . d) d`: the part of `u` across the axis. */
  function Across(u: Vec3, d: Vec3): Vec3
  {
    Sub(u, Scale(d, Dot(u, d)))
  }

  /**
   * The quadratic `a t^2 + b t + c` of `_intersect` for one radius: its
   * zeros are where the ray's line meets the cylinder of that radius about
   * the axis through `origin` along `dir`.
   */
  function SideQuadratic(ray: RayState, origin: Vec3, dir: Vec3, radius: real): Quadratic
  {
    var part1 := Across(ray.dir, dir);
    var part2 := Across(Sub(ray.origin, origin), dir);
    Quadratic(Dot(part1, part1), 2.0 * Dot(part1, part2), Dot(part2, part2) - radius * radius)
  }

  /**
   * The shape of the quadratics `_intersect` builds: the leading
   * coefficient is never negative, and when it is zero (a ray parallel to
   * the axis) so is the linear one.
   */
  predicate Upright(q: Quadratic)
  {
    0.0 <= q.a && (q.a == 0.0 ==> q.b == 0.0)
  }

  /** With a positive discriminant an upright quadratic has a positive leading coefficient. */
  lemma UprightLeading(q: Quadratic)
    requires Upright(q) && 0.0 < q.Discriminant()
    ensures 0.0 < q.a
  {
  }

  lemma SideLeading(ray: RayState, origin: Vec3, dir: Vec3, radius: real)
    ensures Upright(SideQuadratic(ray, origin, dir, radius))
  {
    ZeroLeading(Across(ray.dir, dir), Across(Sub(ray.origin, origin), dir));
  }

  /** Taking the part across the axis commutes with moving along a line. */
  lemma AcrossAlongLine(w: Vec3, e: Vec3, d: Vec3, t: real)
    ensures Across(Add(w, Scale(e, t)), d) == Add(Across(w, d), Scale(Across(e, d), t))
  {
    var kw, ke := Dot(w, d), Dot(e, d);
    DotOnLine(w, e, d, t);
    AcrossAt(Add(w, Scale(e, t)), d, kw + ke * t);
    AcrossAt(w, d, kw);
    AcrossAt(e, d, ke);
    VectorsAlongLine(w, e, d, kw, ke, t);
  }

  /** `Across` with the component along the axis given. */
  lemma AcrossAt(u: Vec3, d: Vec3, k: real)
    requires Dot(u, d) == k
    ensures Across(u, d) == Sub(u, Scale(d, k))
  {
  }

  lemma DotOnLine(w: Vec3, e: Vec3, d: Vec3, t: real)
    ensures Dot(Add(w, Scale(e, t)), d) == Dot(w, d) + Dot(e, d) * t
  {
  }

  lemma VectorsAlongLine(w: Vec3, e: Vec3, d: Vec3, kw: real, ke: real, t: real)
    ensures Sub(Add(w, Scale(e, t)), Scale(d, kw + ke * t)) == Add(Sub(w, Scale(d, kw)), Scale(Sub(e, Scale(d, ke)), t))
  {
    var lhs := Sub(Add(w, Scale(e, t)), Scale(d, kw + ke * t));
    var rhs := Add(Sub(w, Scale(d, kw)), Scale(Sub(e, Scale(d, ke)), t));
    XAlongLine(w, e, d, kw, ke, t);
    YAlongLine(w, e, d, kw, ke, t);
    ZAlongLine(w, e, d, kw, ke, t);
    SameComponents(lhs, rhs);
  }

  lemma XAlongLine(w: Vec3, e: Vec3, d: Vec3, kw: real, ke: real, t: real)
    ensures Sub(Add(w, Scale(e, t)), Scale(d, kw + ke * t)).x == Add(Sub(w, Scale(d, kw)), Scale(Sub(e, Scale(d, ke)), t)).x
  {
    ComponentAlongLine(w.x, e.x, d.x, kw, ke, t);
  }

  lemma YAlongLine(w: Vec3, e: Vec3, d: Vec3, kw: real, ke: real, t: real)
    ensures Sub(Add(w, Scale(e, t)), Scale(d, kw + ke * t)).y == Add(Sub(w, Scale(d, kw)), Scale(Sub(e, Scale(d, ke)), t)).y
  {
    ComponentAlongLine(w.y, e.y, d.y, kw, ke, t);
  }

  lemma ZAlongLine(w: Vec3, e: Vec3, d: Vec3, kw: real, ke: real, t: real)
    ensures Sub(Add(w, Scale(e, t)), Scale(d, kw + ke * t)).z == Add(Sub(w, Scale(d, kw)), Scale(Sub(e, Scale(d, ke)), t)).z
  {
    ComponentAlongLine(w.z, e.z, d.z, kw, ke, t);
  }

  lemma SameComponents(a: Vec3, b: Vec3)
    requires a.x == b.x && a.y == b.y && a.z == b.z
    ensures a == b
  {
  }

  lemma ComponentAlongLine(w: real, e: real, d: real, kw: real, ke: real, t: real)
    ensures (w + e * t) - d * (kw + ke * t) == (w - d * kw) + (e - d * ke) * t
  {
  }

  /**
   * The quadratic at `t` is the squared distance of the ray's point at `t`
   * from the axis, measured as `_contains` measures it, less the squared
   * radius.
   */
  lemma RadialQuadratic(ray: RayState, origin: Vec3, dir: Vec3, radius: real, t: real)
    ensures var q := RadialOffset(origin, dir, PointAt(ray, t));
      Dot(q, q) - radius * radius == SideQuadratic(ray, origin, dir, radius).ValueAt(t)
  {
    var w := Sub(ray.origin, origin);
    assert Sub(PointAt(ray, t), origin) == Add(w, Scale(ray.dir, t));
    assert RadialOffset(origin, dir, PointAt(ray, t)) == Neg(Across(Add(w, Scale(ray.dir, t)), dir));
    RadialAlongLine(w, ray.dir, dir, radius, t);
  }

  /** The same, for the line `w + e t` and the axis direction `d`. */
  lemma RadialAlongLine(w: Vec3, e: Vec3, d: Vec3, radius: real, t: real)
    ensures var r := Neg(Across(Add(w, Scale(e, t)), d));
      var p1, p2 := Across(e, d), Across(w, d);
      Dot(r, r) - radius * radius == Quadratic(Dot(p1, p1), 2.0 * Dot(p1, p2), Dot(p2, p2) - radius * radius).ValueAt(t)
  {
    var p1, p2 := Across(e, d), Across(w, d);
    var across := Add(p2, Scale(p1, t));
    AcrossAlongLine(w, e, d, t);
    var r := Neg(Across(Add(w, Scale(e, t)), d));
    ValueFromParts(r, across, p1, p2, radius * radius, t);
  }

  lemma ValueFromParts(r: Vec3, across: Vec3, p1: Vec3, p2: Vec3, rr: real, t: real)
    requires r == Neg(across) && across == Add(p2, Scale(p1, t))
    ensures Dot(r, r) - rr == Quadratic(Dot(p1, p1), 2.0 * Dot(p1, p2), Dot(p2, p2) - rr).ValueAt(t)
  {
    assert Dot(r, r) == Dot(across, across);
    DotAlongLine(p2, p1, t);
    ShiftedQuadratic(Dot(r, r), Dot(across, across), Dot(p1, p1), Dot(p1, p2), Dot(p2, p2), rr, t);
  }

  lemma ShiftedQuadratic(x: real, y: real, a: real, b: real, c: real, rr: real, t: real)
    requires x == y && y == a * t * t + 2.0 * b * t + c
    ensures x - rr == Quadratic(a, 2.0 * b, c - rr).ValueAt(t)
  {
  }

  /** The roots on the ray, the larger first, when the discriminant is positive. */
  function QuadHits(m: Math, q: Quadratic, length: real): (r: seq<real>)
    requires Upright(q)
    ensures |r| <= 2 && forall i :: 0 <= i < |r| ==> 0.0 <= r[i] <= length
  {
    if q.Discriminant() <= 0.0 then [] else Kept(HighRoot(m, q), length) + Kept(LowRoot(m, q), length)
  }

  /** The parameter alone when it lies on the ray, nothing otherwise. */
  function Kept(t: real, length: real): (r: seq<real>)
    ensures |r| <= 1 && forall i :: 0 <= i < |r| ==> r[i] == t && 0.0 <= t <= length
  {
    if 0.0 <= t <= length then [t] else []
  }

  /** The hits for each radius of `radii` in turn. */
  function HitsFor(m: Math, ray: RayState, a: Annulus, radii: seq<real>): seq<real>
  {
    if |radii| == 0 then []
    else
      var radius := radii[|radii| - 1];
      SideLeading(ray, a.origin, a.dir, radius);
      HitsFor(m, ray, a, radii[..|radii| - 1]) + QuadHits(m, SideQuadratic(ray, a.origin, a.dir, radius), ray.length)
  }

  /** `InfiniteAnnulus._intersect`: the parameters on the ray where it meets the inner cylinder, then the outer. */
  function AnnulusHits(m: Math, ray: RayState, a: Annulus): seq<real>
  {
    HitsFor(m, ray, a, [a.innerRadius, a.outerRadius])
  }

  /** The inner cylinder's hits come first, then the outer's. */
  lemma AnnulusHitsSplit(m: Math, ray: RayState, a: Annulus)
    ensures Upright(SideQuadratic(ray, a.origin, a.dir, a.innerRadius))
    ensures Upright(SideQuadratic(ray, a.origin, a.dir, a.outerRadius))
    ensures AnnulusHits(m, ray, a) ==
      QuadHits(m, SideQuadratic(ray, a.origin, a.dir, a.innerRadius), ray.length) +
      QuadHits(m, SideQuadratic(ray, a.origin, a.dir, a.outerRadius), ray.length)
  {
    SideLeading(ray, a.origin, a.dir, a.innerRadius);
    SideLeading(ray, a.origin, a.dir, a.outerRadius);
    var qi, qo := SideQuadratic(ray, a.origin, a.dir, a.innerRadius), SideQuadratic(ray, a.origin, a.dir, a.outerRadius);
    var radii := [a.innerRadius, a.outerRadius];
    assert radii[..1] == [a.innerRadius];
    assert [a.innerRadius][..0] == [];
    assert HitsFor(m, ray, a, [a.innerRadius]) == QuadHits(m, qi, ray.length);
  }

  /** The coefficients `_intersect` computes from the ray's offset and direction with their axial parts removed. */
  method SideCoefficients(ray: RayState, origin: Vec3, dir: Vec3, radius: real) returns (q: Quadratic)
    ensures q == SideQuadratic(ray, origin, dir, radius)
  {
    var deltap := Sub(ray.origin, origin);
    var part1 := Sub(ray.dir, Scale(dir, Dot(ray.dir, dir)));
    var part2 := Sub(deltap, Scale(dir, Dot(deltap, dir)));
    q := Quadratic(Dot(part1, part1), 2.0 * Dot(part1, part2), Dot(part2, part2) - radius * radius);
  }

  /** The larger and the smaller root, from the square root of the discriminant `zoro`. */
  method RootPair(m: Math, q: Quadratic, zoro: real) returns (t1: real, t2: real)
    requires 0.0 < q.a && zoro == q.Discriminant()
    ensures t1 == HighRoot(m, q) && t2 == LowRoot(m, q)
  {
    var meo := m.sqrt(zoro);
    t1 := (-q.b + meo) / (2.0 * q.a);
    t2 := (-q.b - meo) / (2.0 * q.a);
  }

  /** One pass of `_intersect`'s loop: the quadratic for one radius and its roots on the ray. */
  method SideIntersect(m: Math, ray: RayState, a: Annulus, radius: real) returns (hits: seq<real>)
    ensures Upright(SideQuadratic(ray, a.origin, a.dir, radius))
    ensures hits == QuadHits(m, SideQuadratic(ray, a.origin, a.dir, radius), ray.length)
  {
    SideLeading(ray, a.origin, a.dir, radius);
    var q := SideCoefficients(ray, a.origin, a.dir, radius);
    hits := [];
    var zoro := q.b * q.b - 4.0 * q.a * q.c;
    assert zoro == q.Discriminant();
    if zoro > 0.0 {
      UprightLeading(q);
      var t1, t2 := RootPair(m, q, zoro);
      hits := Spheres.HitsOnRay([t1, t2], ray.length);
    }
  }

  /** The loop of `_intersect` over the inner and outer radii. */
  method Intersect(m: Math, ray: RayState, a: Annulus) returns (results: seq<real>)
    ensures results == AnnulusHits(m, ray, a)
  {
    results := [];
    var radii := [a.innerRadius, a.outerRadius];
    for i := 0 to |radii|
      invariant results == HitsFor(m, ray, a, radii[..i])
    {
      assert radii[..i + 1][..i] == radii[..i];
      var hits := SideIntersect(m, ray, a, radii[i]);
      results := results + hits;
    }
    assert radii[..|radii|] == radii;
  }

  /** The endpoint bookkeeping as written: contained endpoints are appended whenever the count is neither 2 nor 4. */
  function WithEndsAsWritten(crossings: seq<real>, originInside: bool, endInside: bool, length: real): seq<real>
  {
    if |crossings| == 2 || |crossings| == 4 then crossings
    else crossings + (if originInside then [0.0] else []) + (if endInside then [length] else [])
  }

  /** No crossings measure 0; a count other than 2 or 4 raises; otherwise the sorted crossings are paired into segments. */
  function PairedLength(crossings: seq<real>): Result<real>
  {
    if |crossings| == 0 then Ok(0.0)
    else if |crossings| != 2 && |crossings| != 4 then Err(ValueError(ValidCrossings))
    else
      var s := Sort(crossings);
      if |s| == 2 then Ok(s[1] - s[0]) else Ok((s[1] - s[0]) + (s[3] - s[2]))
  }

  /**
   * The paired length raises exactly for a count other than 0, 2 and 4; it
   * is never negative, and for crossings on the ray never more than its
   * length.
   */
  lemma PairedLengthBounds(crossings: seq<real>, length: real)
    requires 0.0 <= length
    requires forall i :: 0 <= i < |crossings| ==> 0.0 <= crossings[i] <= length
    ensures PairedLength(crossings).Ok? <==> |crossings| in {0, 2, 4}
    ensures PairedLength(crossings).Ok? ==> 0.0 <= PairedLength(crossings).value <= length
  {
    if |crossings| == 2 || |crossings| == 4 {
      var s := Sort(crossings);
      SortSorted(crossings);
      SortPermutes(crossings);
      assert s[0] in multiset(crossings) by { assert s[0] in multiset(s); }
      assert s[|s| - 1] in multiset(crossings) by { assert s[|s| - 1] in multiset(s); }
      var i :| 0 <= i < |crossings| && crossings[i] == s[0];
      var j :| 0 <= j < |crossings| && crossings[j] == s[|s| - 1];
      assert s[0] <= s[1];
      if |s| == 4 {
        assert s[1] <= s[2] <= s[3];
      }
    }
  }

  /** The written crossing length, given the inner and outer quadratics and whether the ray's ends are in the wall. */
  function PairedAsWritten(m: Math, qi: Quadratic, qo: Quadratic, originInside: bool, endInside: bool, length: real): Result<real>
    requires Upright(qi) && Upright(qo)
  {
    PairedLength(WithEndsAsWritten(QuadHits(m, qi, length) + QuadHits(m, qo, length), originInside, endInside, length))
  }

  /** `InfiniteAnnulus._get_crossing_length` exactly as written. */
  function AnnulusCrossingAsWritten(m: Math, ray: RayState, a: Annulus): Result<real>
  {
    SideLeading(ray, a.origin, a.dir, a.innerRadius);
    SideLeading(ray, a.origin, a.dir, a.outerRadius);
    PairedAsWritten(m, SideQuadratic(ray, a.origin, a.dir, a.innerRadius), SideQuadratic(ray, a.origin, a.dir, a.outerRadius),
      AnnulusContains(a, ray.origin), AnnulusContains(a, ray.end), ray.length)
  }

  /** The written crossing-length routine: intersect, then add the contained endpoints, sort and pair. */
  method CrossingLengthAsWritten(m: Math, ray: RayState, a: Annulus) returns (r: Result<real>)
    ensures r == AnnulusCrossingAsWritten(m, ray, a)
  {
    var crossings := Intersect(m, ray, a);
    AnnulusHitsSplit(m, ray, a);
    r := PairUp(crossings, AnnulusContains(a, ray.origin), AnnulusContains(a, ray.end), ray.length);
  }

  /** The bookkeeping after `_intersect`: add the contained endpoints, then pair. */
  method PairUp(hits: seq<real>, originInside: bool, endInside: bool, length: real) returns (r: Result<real>)
    ensures r == PairedLength(WithEndsAsWritten(hits, originInside, endInside, length))
  {
    var crossings := hits;
    if |crossings| != 2 && |crossings| != 4 {
      if originInside {
        crossings := crossings + [0.0];
      }
      if endInside {
        crossings := crossings + [length];
      }
    }
    assert crossings == WithEndsAsWritten(hits, originInside, endInside, length);
    r := Pair(crossings);
  }

  /** Reject bad counts, sort in place and pair. */
  method Pair(crossings: seq<real>) returns (r: Result<real>)
    ensures r == PairedLength(crossings)
  {
    if |crossings| == 0 {
      return Ok(0.0);
    }
    if |crossings| != 2 && |crossings| != 4 {
      return Err(ValueError(ValidCrossings));
    }
    var sorted := Sort(crossings);
    assert |sorted| == |crossings|;
    if |sorted| == 2 {
      return Ok(sorted[1] - sorted[0]);
    }
    return Ok((sorted[1] - sorted[0]) + (sorted[3] - sorted[2]));
  }

  /**
   * The length of the ray inside the cylinder whose quadratic is `q`: the
   * overlap of the ray with the interval between the roots, or the whole
   * ray when it runs parallel to the axis inside the cylinder (on its
   * surface too when `closed`).
   */
  function QuadChord(m: Math, q: Quadratic, closed: bool, length: real): (r: real)
    requires Upright(q)
    ensures 0.0 <= length ==> 0.0 <= r <= length
  {
    if q.a == 0.0 then (if q.c < 0.0 || (closed && q.c == 0.0) then length else 0.0)
    else if q.Discriminant() <= 0.0 then 0.0
    else Overlap(LowRoot(m, q), HighRoot(m, q), length)
  }

  /** The part inside the closed outer cylinder less the part strictly inside the hole, never negative. */
  function WallLength(m: Math, qi: Quadratic, qo: Quadratic, length: real): (r: real)
    requires Upright(qi) && Upright(qo)
    ensures 0.0 <= length ==> 0.0 <= r <= length
  {
    var d := QuadChord(m, qo, true, length) - QuadChord(m, qi, false, length);
    if d < 0.0 then 0.0 else d
  }

  /** The corrected crossing length of a ray through the annulus's wall. */
  function AnnulusCrossing(m: Math, ray: RayState, a: Annulus): (r: real)
    ensures 0.0 <= ray.length ==> 0.0 <= r <= ray.length
  {
    SideLeading(ray, a.origin, a.dir, a.innerRadius);
    SideLeading(ray, a.origin, a.dir, a.outerRadius);
    WallLength(m, SideQuadratic(ray, a.origin, a.dir, a.innerRadius), SideQuadratic(ray, a.origin, a.dir, a.outerRadius), ray.length)
  }

  /** The quadratics of a smaller and a larger radius about the same axis differ only in the constant term, the larger one's no greater. */
  predicate Coaxial(qi: Quadratic, qo: Quadratic)
  {
    qi.a == qo.a && qi.b == qo.b && qo.c <= qi.c
  }

  /** For 0 <= inner <= outer the two quadratics are coaxial. */
  lemma OuterConstantSmaller(ray: RayState, a: Annulus)
    requires 0.0 <= a.innerRadius <= a.outerRadius
    ensures Coaxial(SideQuadratic(ray, a.origin, a.dir, a.innerRadius), SideQuadratic(ray, a.origin, a.dir, a.outerRadius))
  {
    var p1, p2 := Across(ray.dir, a.dir), Across(Sub(ray.origin, a.origin), a.dir);
    CoaxialByRadius(Dot(p1, p1), 2.0 * Dot(p1, p2), Dot(p2, p2), a.innerRadius, a.outerRadius);
  }

  lemma CoaxialByRadius(qa: real, qb: real, p: real, ri: real, ro: real)
    requires 0.0 <= ri <= ro
    ensures Coaxial(Quadratic(qa, qb, p - ri * ri), Quadratic(qa, qb, p - ro * ro))
  {
    Spheres.SquaresOrdered(ri, ro);
  }

  /** Dividing by the same positive number keeps the order. */
  lemma DivMonotone(x: real, y: real, p: real)
    requires x <= y && 0.0 < p
    ensures x / p <= y / p
  {
    var u, v := x / p, y / p;
    assert u * p == x && v * p == y;
    if v < u {
      PositiveProduct(u - v, p);
    }
  }

  /** Lowering the constant term of a quadratic widens the interval between its roots. */
  lemma WiderRoots(m: Math, q: Quadratic, q': Quadratic)
    requires m.SqrtExact() && 0.0 < q.a && 0.0 < q.Discriminant()
    requires Coaxial(q, q')
    ensures 0.0 < q'.Discriminant()
    ensures LowRoot(m, q') <= LowRoot(m, q) && HighRoot(m, q) <= HighRoot(m, q')
  {
    var a := q.a;
    MulLeft(q'.c, q.c, 4.0 * a);
    assert q.Discriminant() <= q'.Discriminant();
    SqrtMonotone(m, q.Discriminant(), q'.Discriminant());
    var s, s' := m.sqrt(q.Discriminant()), m.sqrt(q'.Discriminant());
    DivMonotone(-q.b - s', -q.b - s, 2.0 * a);
    DivMonotone(-q.b + s, -q.b + s', 2.0 * a);
  }

  /** The hole's part of the ray lies inside the outer cylinder's part, so the wall length is their plain difference. */
  lemma WallDifference(m: Math, qi: Quadratic, qo: Quadratic, length: real)
    requires m.SqrtExact() && Upright(qi) && Upright(qo) && Coaxial(qi, qo) && 0.0 <= length
    ensures QuadChord(m, qi, false, length) <= QuadChord(m, qo, true, length)
    ensures WallLength(m, qi, qo, length) == QuadChord(m, qo, true, length) - QuadChord(m, qi, false, length)
  {
    if qi.a != 0.0 && 0.0 < qi.Discriminant() {
      WiderRoots(m, qi, qo);
      Spheres.OverlapMonotone(LowRoot(m, qo), HighRoot(m, qo), LowRoot(m, qi), HighRoot(m, qi), length);
    }
  }

  /**
   * For radii 0 <= inner <= outer, the ray's part in the hole lies within
   * its part in the outer cylinder, so the corrected crossing is the plain
   * difference of the two, in [0, length].
   */
  lemma AnnulusCrossingDifference(m: Math, ray: RayState, a: Annulus)
    requires m.SqrtExact() && Regular(ray)
    requires 0.0 <= a.innerRadius <= a.outerRadius
    ensures Upright(SideQuadratic(ray, a.origin, a.dir, a.innerRadius))
    ensures Upright(SideQuadratic(ray, a.origin, a.dir, a.outerRadius))
    ensures var o, i := QuadChord(m, SideQuadratic(ray, a.origin, a.dir, a.outerRadius), true, ray.length),
                        QuadChord(m, SideQuadratic(ray, a.origin, a.dir, a.innerRadius), false, ray.length);
      i <= o && AnnulusCrossing(m, ray, a) == o - i
  {
    SideLeading(ray, a.origin, a.dir, a.innerRadius);
    SideLeading(ray, a.origin, a.dir, a.outerRadius);
    OuterConstantSmaller(ray, a);
    WallDifference(m, SideQuadratic(ray, a.origin, a.dir, a.innerRadius), SideQuadratic(ray, a.origin, a.dir, a.outerRadius), ray.length);
  }

  /** Whether a point is in the wall, read off the two quadratics' values at its parameter. */
  lemma WallByValues(dd: real, ri2: real, ro2: real, vi: real, vo: real)
    requires vi == dd - ri2 && vo == dd - ro2
    ensures (!(dd < ri2) && !(dd > ro2)) <==> vo <= 0.0 && !(vi < 0.0)
  {
  }

  /** The annulus contains the ray's point at `t` iff the outer quadratic is at most zero there and the inner one is not negative. */
  lemma ContainsByValues(ray: RayState, a: Annulus, t: real)
    ensures AnnulusContains(a, PointAt(ray, t)) <==>
      SideQuadratic(ray, a.origin, a.dir, a.outerRadius).ValueAt(t) <= 0.0 &&
      !(SideQuadratic(ray, a.origin, a.dir, a.innerRadius).ValueAt(t) < 0.0)
  {
    var q := RadialOffset(a.origin, a.dir, PointAt(ray, t));
    RadialQuadratic(ray, a.origin, a.dir, a.outerRadius, t);
    RadialQuadratic(ray, a.origin, a.dir, a.innerRadius, t);
    WallByValues(Dot(q, q), a.innerRadius * a.innerRadius, a.outerRadius * a.outerRadius,
      SideQuadratic(ray, a.origin, a.dir, a.innerRadius).ValueAt(t), SideQuadratic(ray, a.origin, a.dir, a.outerRadius).ValueAt(t));
  }

  /** The sign conditions of `ContainsByValues` as intervals of the parameter. */
  lemma WallInterval(m: Math, qi: Quadratic, qo: Quadratic, t: real)
    requires m.SqrtExact() && Upright(qi) && Upright(qo) && qi.a == qo.a && 0.0 < qo.Discriminant()
    ensures 0.0 < qo.a
    ensures qo.ValueAt(t) <= 0.0 && !(qi.ValueAt(t) < 0.0) <==>
      LowRoot(m, qo) <= t <= HighRoot(m, qo) &&
      !(0.0 < qi.Discriminant() && LowRoot(m, qi) < t < HighRoot(m, qi))
  {
    UprightLeading(qo);
    SignBetweenRoots(m, qo, t);
    if 0.0 < qi.Discriminant() {
      SignBetweenRoots(m, qi, t);
    } else {
      Spheres.NonNegativeOutsideRoots(qi, t);
    }
  }

  /**
   * Where the ray's line meets the outer cylinder, the annulus contains
   * exactly the points between the outer roots that are not strictly
   * between the inner roots: what the corrected length measures.
   */
  lemma AnnulusInterval(m: Math, ray: RayState, a: Annulus, t: real)
    requires m.SqrtExact()
    requires 0.0 < SideQuadratic(ray, a.origin, a.dir, a.outerRadius).Discriminant()
    ensures 0.0 < SideQuadratic(ray, a.origin, a.dir, a.outerRadius).a
    ensures SideQuadratic(ray, a.origin, a.dir, a.innerRadius).a == SideQuadratic(ray, a.origin, a.dir, a.outerRadius).a
    ensures var qo, qi := SideQuadratic(ray, a.origin, a.dir, a.outerRadius), SideQuadratic(ray, a.origin, a.dir, a.innerRadius);
      AnnulusContains(a, PointAt(ray, t)) <==>
        LowRoot(m, qo) <= t <= HighRoot(m, qo) &&
        !(0.0 < qi.Discriminant() && LowRoot(m, qi) < t < HighRoot(m, qi))
  {
    var qo, qi := SideQuadratic(ray, a.origin, a.dir, a.outerRadius), SideQuadratic(ray, a.origin, a.dir, a.innerRadius);
    SideLeading(ray, a.origin, a.dir, a.outerRadius);
    SideLeading(ray, a.origin, a.dir, a.innerRadius);
    assert qi.a == qo.a;
    ContainsByValues(ray, a, t);
    WallInterval(m, qi, qo, t);
  }

  lemma FlatValue(q: Quadratic, t: real)
    requires q.a == 0.0 && q.b == 0.0
    ensures q.ValueAt(t) == q.c
  {
  }

  /** A ray parallel to the axis is in the wall everywhere or nowhere: as the constant terms say. */
  lemma AnnulusAlongAxis(ray: RayState, a: Annulus, t: real)
    requires SideQuadratic(ray, a.origin, a.dir, a.outerRadius).a == 0.0
    ensures AnnulusContains(a, PointAt(ray, t)) <==>
      SideQuadratic(ray, a.origin, a.dir, a.outerRadius).c <= 0.0 &&
      !(SideQuadratic(ray, a.origin, a.dir, a.innerRadius).c < 0.0)
  {
    var qo, qi := SideQuadratic(ray, a.origin, a.dir, a.outerRadius), SideQuadratic(ray, a.origin, a.dir, a.innerRadius);
    SideLeading(ray, a.origin, a.dir, a.outerRadius);
    SideLeading(ray, a.origin, a.dir, a.innerRadius);
    assert qi.a == qo.a;
    ContainsByValues(ray, a, t);
    FlatValue(qo, t);
    FlatValue(qi, t);
  }

  /** Both roots on the ray: they are its two hits, the larger first, and the chord is the distance between them. */
  lemma BothRootsOnRay(m: Math, q: Quadratic, length: real)
    requires m.SqrtExact() && Upright(q) && 0.0 < q.a && 0.0 < q.Discriminant()
    requires 0.0 <= LowRoot(m, q) && HighRoot(m, q) <= length
    ensures LowRoot(m, q) < HighRoot(m, q)
    ensures QuadHits(m, q, length) == [HighRoot(m, q), LowRoot(m, q)]
    ensures QuadChord(m, q, true, length) == HighRoot(m, q) - LowRoot(m, q)
    ensures QuadChord(m, q, false, length) == HighRoot(m, q) - LowRoot(m, q)
  {
    Factored(m, q, 0.0);
  }

  /** All four crossings on the ray: the written routine sorts and pairs them into the wall length. */
  lemma FullCrossingAgrees(m: Math, qi: Quadratic, qo: Quadratic, originInside: bool, endInside: bool, length: real)
    requires m.SqrtExact() && Upright(qi) && Upright(qo) && Coaxial(qi, qo)
    requires 0.0 < qi.Discriminant()
    requires 0.0 < qo.a && 0.0 <= LowRoot(m, qo) && HighRoot(m, qo) <= length
    ensures PairedAsWritten(m, qi, qo, originInside, endInside, length) == Ok(WallLength(m, qi, qo, length))
  {
    FourHitsPaired(m, qi, qo, originInside, endInside, length);
    WiderRoots(m, qi, qo);
    var loi, hii, loo, hio := LowRoot(m, qi), HighRoot(m, qi), LowRoot(m, qo), HighRoot(m, qo);
    BothRootsOnRay(m, qi, length);
    BothRootsOnRay(m, qo, length);
    assert WallLength(m, qi, qo, length) == (hio - loo) - (hii - loi);
    Regrouped(loo, loi, hii, hio);
  }

  /** The four hits, paired: the outer roots' interval less the inner roots' one. */
  lemma FourHitsPaired(m: Math, qi: Quadratic, qo: Quadratic, originInside: bool, endInside: bool, length: real)
    requires m.SqrtExact() && Upright(qi) && Upright(qo) && Coaxial(qi, qo)
    requires 0.0 < qi.Discriminant()
    requires 0.0 < qo.a && 0.0 <= LowRoot(m, qo) && HighRoot(m, qo) <= length
    ensures 0.0 < qi.a && 0.0 < qo.Discriminant()
    ensures PairedAsWritten(m, qi, qo, originInside, endInside, length) ==
      Ok((LowRoot(m, qi) - LowRoot(m, qo)) + (HighRoot(m, qo) - HighRoot(m, qi)))
  {
    assert 0.0 < qi.a by { UprightLeading(qi); }
    assert 0.0 < qo.Discriminant() && LowRoot(m, qo) <= LowRoot(m, qi) < HighRoot(m, qi) <= HighRoot(m, qo) by {
      WiderRoots(m, qi, qo);
      Factored(m, qi, 0.0);
    }
    var hits := QuadHits(m, qi, length) + QuadHits(m, qo, length);
    NestedPaired(LowRoot(m, qo), LowRoot(m, qi), HighRoot(m, qi), HighRoot(m, qo), length);
    assert WithEndsAsWritten(hits, originInside, endInside, length) == hits;
  }

  /** Four hits at the ends of nested intervals on the ray pair into the outer interval less the inner one. */
  lemma NestedPaired(lo: real, lo': real, hi': real, hi: real, length: real)
    requires 0.0 <= lo <= lo' < hi' <= hi <= length
    ensures var hits := (Kept(hi', length) + Kept(lo', length)) + (Kept(hi, length) + Kept(lo, length));
      |hits| == 4 && PairedLength(hits) == Ok((lo' - lo) + (hi - hi'))
  {
    assert Kept(hi', length) == [hi'] && Kept(lo', length) == [lo'];
    assert Kept(hi, length) == [hi] && Kept(lo, length) == [lo];
    assert ([hi'] + [lo']) + ([hi] + [lo]) == [hi', lo', hi, lo];
    SortFour(lo, lo', hi', hi);
  }

  /** The hits of nested intervals, as the two cylinders report them, sort into the intervals' ends in order. */
  lemma SortFour(a: real, b: real, c: real, d: real)
    requires a <= b < c <= d
    ensures Sort([c, b, d, a]) == [a, b, c, d]
  {
    assert [c, b, d, a][1..] == [b, d, a] && [b, d, a][1..] == [d, a] && [d, a][1..] == [a] && [a][1..] == [];
    assert Sort([d, a]) == Insert(d, [a]) == [a, d];
    assert Sort([b, d, a]) == Insert(b, [a, d]) == [a, b, d];
    assert [a, b, d][1..] == [b, d] && [b, d][1..] == [d];
    assert Insert(c, [d]) == [c, d];
    assert Insert(c, [b, d]) == [b, c, d];
  }

  /** Two hits, the larger first, sort into ascending order. */
  lemma SortTwo(lo: real, hi: real)
    requires lo <= hi
    ensures Sort([hi, lo]) == [lo, hi] && Sort([lo, hi]) == [lo, hi]
  {
    assert [hi, lo][1..] == [lo] && [lo, hi][1..] == [hi] && [lo][1..] == [] && [hi][1..] == [];
    assert Sort([lo]) == [lo] && Sort([hi]) == [hi];
  }

  lemma Regrouped(lo: real, lo': real, hi': real, hi: real)
    ensures (lo' - lo) + (hi - hi') == (hi - lo) - (hi' - lo')
  {
  }

  /** Both outer crossings on the ray and no inner ones: the written routine pairs the two into the wall length. */
  lemma MissingHoleAgrees(m: Math, qi: Quadratic, qo: Quadratic, originInside: bool, endInside: bool, length: real)
    requires m.SqrtExact() && Upright(qi) && Upright(qo) && Coaxial(qi, qo)
    requires qi.Discriminant() <= 0.0
    requires 0.0 < qo.a && 0.0 < qo.Discriminant() && 0.0 <= LowRoot(m, qo) && HighRoot(m, qo) <= length
    ensures PairedAsWritten(m, qi, qo, originInside, endInside, length) == Ok(WallLength(m, qi, qo, length))
  {
    BothRootsOnRay(m, qo, length);
    var loo, hio := LowRoot(m, qo), HighRoot(m, qo);
    assert QuadHits(m, qi, length) == [];
    assert QuadHits(m, qi, length) + QuadHits(m, qo, length) == [hio, loo];
    assert WithEndsAsWritten([hio, loo], originInside, endInside, length) == [hio, loo];
    SortTwo(loo, hio);
    assert QuadChord(m, qi, false, length) == 0.0;
  }

  /** No crossings at all on a ray parallel to the axis: the written routine measures all of it when its ends are in the wall. */
  lemma AlongAxisAgrees(m: Math, qi: Quadratic, qo: Quadratic, originInside: bool, endInside: bool, length: real)
    requires Upright(qi) && Upright(qo) && Coaxial(qi, qo) && qo.a == 0.0 && 0.0 <= length
    requires originInside == (qo.c <= 0.0 && !(qi.c < 0.0)) && endInside == originInside
    ensures PairedAsWritten(m, qi, qo, originInside, endInside, length) == Ok(WallLength(m, qi, qo, length))
    ensures WallLength(m, qi, qo, length) == if originInside then length else 0.0
  {
    assert QuadHits(m, qi, length) == [] && QuadHits(m, qo, length) == [];
    var ends := WithEndsAsWritten([], originInside, endInside, length);
    assert ends == if originInside then [0.0, length] else [];
    if originInside {
      SortTwo(0.0, length);
    }
  }

  /**
   * A ray that meets both cylinders with all four crossings on it: the
   * written routine agrees with the corrected length.
   */
  lemma AsWrittenFullCrossing(m: Math, ray: RayState, a: Annulus)
    requires m.SqrtExact() && 0.0 <= a.innerRadius <= a.outerRadius
    requires 0.0 < SideQuadratic(ray, a.origin, a.dir, a.innerRadius).Discriminant()
    requires var qo := SideQuadratic(ray, a.origin, a.dir, a.outerRadius);
      0.0 < qo.a && 0.0 <= LowRoot(m, qo) && HighRoot(m, qo) <= ray.length
    ensures AnnulusCrossingAsWritten(m, ray, a) == Ok(AnnulusCrossing(m, ray, a))
  {
    SideLeading(ray, a.origin, a.dir, a.innerRadius);
    SideLeading(ray, a.origin, a.dir, a.outerRadius);
    OuterConstantSmaller(ray, a);
    FullCrossingAgrees(m, SideQuadratic(ray, a.origin, a.dir, a.innerRadius), SideQuadratic(ray, a.origin, a.dir, a.outerRadius),
      AnnulusContains(a, ray.origin), AnnulusContains(a, ray.end), ray.length);
  }

  /**
   * A ray that crosses the outer cylinder twice and misses the hole: the
   * written routine agrees with the corrected length.
   */
  lemma AsWrittenMissingHole(m: Math, ray: RayState, a: Annulus)
    requires m.SqrtExact() && 0.0 <= a.innerRadius <= a.outerRadius
    requires SideQuadratic(ray, a.origin, a.dir, a.innerRadius).Discriminant() <= 0.0
    requires var qo := SideQuadratic(ray, a.origin, a.dir, a.outerRadius);
      0.0 < qo.a && 0.0 < qo.Discriminant() && 0.0 <= LowRoot(m, qo) && HighRoot(m, qo) <= ray.length
    ensures AnnulusCrossingAsWritten(m, ray, a) == Ok(AnnulusCrossing(m, ray, a))
  {
    SideLeading(ray, a.origin, a.dir, a.innerRadius);
    SideLeading(ray, a.origin, a.dir, a.outerRadius);
    OuterConstantSmaller(ray, a);
    MissingHoleAgrees(m, SideQuadratic(ray, a.origin, a.dir, a.innerRadius), SideQuadratic(ray, a.origin, a.dir, a.outerRadius),
      AnnulusContains(a, ray.origin), AnnulusContains(a, ray.end), ray.length);
  }

  /**
   * A ray parallel to the axis: the written routine measures all of it
   * when it lies in the wall and nothing otherwise, agreeing with the
   * corrected length.
   */
  lemma AsWrittenAlongAxis(m: Math, ray: RayState, a: Annulus)
    requires Regular(ray) && 0.0 <= a.innerRadius <= a.outerRadius
    requires SideQuadratic(ray, a.origin, a.dir, a.outerRadius).a == 0.0
    ensures AnnulusCrossingAsWritten(m, ray, a) == Ok(AnnulusCrossing(m, ray, a))
    ensures AnnulusCrossing(m, ray, a) == if AnnulusContains(a, ray.origin) then ray.length else 0.0
  {
    SideLeading(ray, a.origin, a.dir, a.innerRadius);
    SideLeading(ray, a.origin, a.dir, a.outerRadius);
    OuterConstantSmaller(ray, a);
    AnnulusAlongAxis(ray, a, 0.0);
    AnnulusAlongAxis(ray, a, ray.length);
    OriginOnRay(ray);
    AlongAxisAgrees(m, SideQuadratic(ray, a.origin, a.dir, a.innerRadius), SideQuadratic(ray, a.origin, a.dir, a.outerRadius),
      AnnulusContains(a, ray.origin), AnnulusContains(a, ray.end), ray.length);
  }

  /** The z-aligned constructor with its center on the z axis builds an annulus about the z axis. */
  lemma AlignedAboutZ(m: Math, z: real, innerRadius: real, outerRadius: real)
    requires m.SqrtOfSquares() && 0.0 < innerRadius && 0.0 < outerRadius
    ensures AboutZ(AlignedAnnulus(m, Vec3(0.0, 0.0, z), 2, innerRadius, outerRadius))
  {
    AlignedAnnulusAxis(m, Vec3(0.0, 0.0, z), 2, innerRadius, outerRadius);
  }

  /** An annulus about the z axis, of positive radii: the shape of the annulus in the shield tests. */
  predicate AboutZ(a: Annulus)
  {
    a.origin.x == 0.0 && a.origin.y == 0.0 && a.dir == Vec3(0.0, 0.0, 1.0) && 0.0 < a.innerRadius && 0.0 < a.outerRadius
  }

  /** A point in the plane y = 0 is in the wall of such an annulus iff ri <= |x| <= ro. */
  lemma AboutZContains(a: Annulus, p: Vec3)
    requires AboutZ(a) && p.y == 0.0
    ensures AnnulusContains(a, p) <==> a.innerRadius * a.innerRadius <= p.x * p.x <= a.outerRadius * a.outerRadius
  {
    assert RadialOffset(a.origin, a.dir, p) == Vec3(-p.x, 0.0, 0.0);
  }

  /** For a ray along the x axis in the plane y = 0, the quadratic of such an annulus is (t + e x0)^2 - r^2. */
  lemma AboutZQuadratic(ray: RayState, a: Annulus, e: real, r: real)
    requires AboutZ(a) && ray.dir == Vec3(e, 0.0, 0.0) && e * e == 1.0 && ray.origin.y == 0.0
    ensures var p := e * ray.origin.x;
      SideQuadratic(ray, a.origin, a.dir, r) == Shifted(p, r)
  {
    var x := ray.origin.x;
    assert Across(ray.dir, a.dir) == ray.dir;
    assert Across(Sub(ray.origin, a.origin), a.dir) == Vec3(x, 0.0, 0.0);
    assert (e * x) * (e * x) == (e * e) * (x * x);
  }

  /** The quadratic (t + p)^2 - r^2. */
  function Shifted(p: real, r: real): Quadratic
  {
    Quadratic(1.0, 2.0 * p, p * p - r * r)
  }

  /** The discriminant of (t + p)^2 - r^2 is (2r)^2. */
  lemma ShiftedDiscriminant(p: real, r: real)
    requires 0.0 < r
    ensures Shifted(p, r).Discriminant() == Square(2.0 * r)
    ensures 0.0 < Square(2.0 * r)
  {
    calc {
      Shifted(p, r).Discriminant();
      (2.0 * p) * (2.0 * p) - 4.0 * 1.0 * (p * p - r * r);
      Square(2.0 * r);
    }
    calc {
      Square(2.0 * r);
      (2.0 * r) * (2.0 * r);
    > { PositiveProduct(2.0 * r, 2.0 * r); }
      0.0;
    }
  }

  /** The roots of (t + p)^2 - r^2 are -p - r and -p + r. */
  lemma ShiftedRoots(m: Math, p: real, r: real)
    requires m.SqrtOfSquares() && 0.0 < r
    ensures Upright(Shifted(p, r))
    ensures 0.0 < Shifted(p, r).Discriminant()
    ensures LowRoot(m, Shifted(p, r)) == -p - r
    ensures HighRoot(m, Shifted(p, r)) == -p + r
  {
    var q := Shifted(p, r);
    ShiftedDiscriminant(p, r);
    assert m.sqrt(q.Discriminant()) == 2.0 * r by {
      assert m.sqrt(Square(2.0 * r)) == 2.0 * r;
    }
    assert LowRoot(m, q) == (-2.0 * p - 2.0 * r) / 2.0 == -p - r;
    assert HighRoot(m, q) == (-2.0 * p + 2.0 * r) / 2.0 == -p + r;
  }

  /** The hits and chord of one cylinder of the test annulus along such a ray. */
  lemma ShiftedHits(m: Math, p: real, r: real, length: real)
    requires m.SqrtOfSquares() && 0.0 < r
    ensures var q := Shifted(p, r);
      Upright(q) &&
      QuadHits(m, q, length) == Kept(-p + r, length) + Kept(-p - r, length) &&
      QuadChord(m, q, true, length) == Overlap(-p - r, -p + r, length) &&
      QuadChord(m, q, false, length) == Overlap(-p - r, -p + r, length)
  {
    ShiftedRoots(m, p, r);
  }

  /** The written routine on two shifted quadratics of radii `ri` and `ro`, in closed form. */
  lemma ShiftedAsWritten(m: Math, p: real, ri: real, ro: real, originInside: bool, endInside: bool, l: real)
    requires m.SqrtOfSquares() && 0.0 < ri && 0.0 < ro
    ensures Upright(Shifted(p, ri)) && Upright(Shifted(p, ro))
    ensures PairedAsWritten(m, Shifted(p, ri), Shifted(p, ro), originInside, endInside, l) ==
      PairedLength(WithEndsAsWritten((Kept(-p + ri, l) + Kept(-p - ri, l)) + (Kept(-p + ro, l) + Kept(-p - ro, l)), originInside, endInside, l))
  {
    ShiftedHits(m, p, ri, l);
    ShiftedHits(m, p, ro, l);
  }

  /** The corrected length on two shifted quadratics: the outer overlap less the inner one's. */
  lemma ShiftedCorrected(m: Math, p: real, ri: real, ro: real, l: real)
    requires m.SqrtOfSquares() && 0.0 < ri && 0.0 < ro
    ensures Upright(Shifted(p, ri)) && Upright(Shifted(p, ro))
    ensures var d := Overlap(-p - ro, -p + ro, l) - Overlap(-p - ri, -p + ri, l);
      WallLength(m, Shifted(p, ri), Shifted(p, ro), l) == if d < 0.0 then 0.0 else d
  {
    ShiftedHits(m, p, ri, l);
    ShiftedHits(m, p, ro, l);
  }

  /**
   * A ray along the x axis in the plane y = 0, forwards (e = 1) or
   * backwards (e = -1), its origin at signed position p = e x0 along its
   * own direction: it passes the z axis at parameter -p.
   */
  predicate OnXAxis(ray: RayState, e: real, p: real)
  {
    ray.dir == Vec3(e, 0.0, 0.0) && e * e == 1.0 && ray.origin.y == 0.0 && ray.end.y == 0.0 &&
    p == e * ray.origin.x && ray.end.x == ray.origin.x + e * ray.length
  }

  /** The forward axis ray from x = x0 starts at signed position x0. */
  lemma AlongXOnAxis(x0: real, x1: real, z: real)
    ensures OnXAxis(AlongX(x0, x1, 0.0, z), 1.0, x0)
  {
  }

  /** The backward axis ray from x = x0 starts at signed position -x0. */
  lemma AgainstXOnAxis(x0: real, x1: real, z: real)
    ensures OnXAxis(AgainstX(x0, x1, 0.0, z), -1.0, -x0)
  {
  }

  /** The written routine and the corrected length on such a ray work on the two shifted quadratics of the radii. */
  lemma AboutZBoth(m: Math, ray: RayState, a: Annulus, e: real, p: real)
    requires m.SqrtOfSquares() && AboutZ(a) && OnXAxis(ray, e, p)
    ensures Upright(Shifted(p, a.innerRadius)) && Upright(Shifted(p, a.outerRadius))
    ensures AnnulusCrossingAsWritten(m, ray, a) ==
      PairedAsWritten(m, Shifted(p, a.innerRadius), Shifted(p, a.outerRadius), AnnulusContains(a, ray.origin), AnnulusContains(a, ray.end), ray.length)
    ensures AnnulusCrossing(m, ray, a) == WallLength(m, Shifted(p, a.innerRadius), Shifted(p, a.outerRadius), ray.length)
  {
    var ri, ro := a.innerRadius, a.outerRadius;
    ShiftedRoots(m, p, ri);
    ShiftedRoots(m, p, ro);
    AboutZQuadratic(ray, a, e, ri);
    AboutZQuadratic(ray, a, e, ro);
  }

  /** A closed form of the written routine and of the corrected length on the shifted quadratics carries over to the ray. */
  lemma AboutZResult(m: Math, ray: RayState, a: Annulus, e: real, p: real, o: bool, n: bool, asWritten: Result<real>, corrected: real)
    requires m.SqrtOfSquares() && AboutZ(a) && OnXAxis(ray, e, p)
    requires o == AnnulusContains(a, ray.origin) && n == AnnulusContains(a, ray.end)
    requires Upright(Shifted(p, a.innerRadius)) && Upright(Shifted(p, a.outerRadius))
    requires PairedAsWritten(m, Shifted(p, a.innerRadius), Shifted(p, a.outerRadius), o, n, ray.length) == asWritten
    requires WallLength(m, Shifted(p, a.innerRadius), Shifted(p, a.outerRadius), ray.length) == corrected
    ensures AnnulusCrossingAsWritten(m, ray, a) == asWritten && AnnulusCrossing(m, ray, a) == corrected
  {
    AboutZBoth(m, ray, a, e, p);
  }

  /** Squares of non-negative numbers are ordered as the numbers are. */
  lemma SquareOrder(u: real, r: real)
    requires 0.0 <= u && 0.0 <= r
    ensures r <= u <==> r * r <= u * u
  {
    if r <= u {
      MulLeft(r, u, r);
      MulLeft(r, u, u);
    } else {
      calc {
        u * u;
      <= { MulLeft(u, r, u); }
        r * u;
      < { assert r * r - r * u == (r - u) * r; PositiveProduct(r - u, r); }
        r * r;
      }
    }
  }

  /** A point in the plane y = 0 lies in the wall of an annulus about the z axis iff ri <= |x| <= ro. */
  lemma WallContains(a: Annulus, q: Vec3)
    requires AboutZ(a) && q.y == 0.0
    ensures AnnulusContains(a, q) <==> a.innerRadius <= Abs(q.x) <= a.outerRadius
  {
    AboutZContains(a, q);
    assert q.x * q.x == Abs(q.x) * Abs(q.x);
    SquareOrder(Abs(q.x), a.innerRadius);
    SquareOrder(a.outerRadius, Abs(q.x));
  }

  /** A number whose square is 1 is 1 or -1. */
  lemma UnitSign(e: real)
    requires e * e == 1.0
    ensures e == 1.0 || e == -1.0
  {
    assert e * e == Abs(e) * Abs(e);
    SquareOrder(Abs(e), 1.0);
    SquareOrder(1.0, Abs(e));
  }

  /**
   * The ends of such a ray lie in the wall exactly when their distances
   * from the axis, |p| for the origin and |p + length| for the end, lie
   * between the radii.
   */
  lemma AxisEnds(a: Annulus, ray: RayState, e: real, p: real)
    requires AboutZ(a) && OnXAxis(ray, e, p)
    ensures AnnulusContains(a, ray.origin) <==> a.innerRadius <= Abs(p) <= a.outerRadius
    ensures AnnulusContains(a, ray.end) <==> a.innerRadius <= Abs(p + ray.length) <= a.outerRadius
  {
    WallContains(a, ray.origin);
    WallContains(a, ray.end);
    UnitSign(e);
    assert Abs(p) == Abs(ray.origin.x) && Abs(p + ray.length) == Abs(ray.end.x);
  }

  /**
   * Side to side, with the axis at -p and all four crossings on the ray:
   * both routines measure the two walls, 2 (ro - ri).  The shield tests run
   * it both ways between (-20, 0, 0) and (20, 0, 0) through radii 2 and 4
   * (p = -20, length 40): 4 cm.
   */
  lemma AxisSideToSide(m: Math, a: Annulus, ray: RayState, e: real, p: real)
    requires m.SqrtOfSquares() && AboutZ(a) && a.innerRadius < a.outerRadius && OnXAxis(ray, e, p)
    requires 0.0 <= -p - a.outerRadius && -p + a.outerRadius <= ray.length
    ensures var w := 2.0 * (a.outerRadius - a.innerRadius);
      AnnulusCrossingAsWritten(m, ray, a) == Ok(w) && AnnulusCrossing(m, ray, a) == w
  {
    var w := 2.0 * (a.outerRadius - a.innerRadius);
    ShiftedSideToSide(m, p, a.innerRadius, a.outerRadius, ray.length);
    AboutZAnyEnds(m, ray, a, e, p, Ok(w), w);
  }

  lemma ShiftedSideToSide(m: Math, p: real, ri: real, ro: real, l: real)
    requires m.SqrtOfSquares() && 0.0 < ri < ro && 0.0 <= -p - ro && -p + ro <= l
    ensures Upright(Shifted(p, ri)) && Upright(Shifted(p, ro))
    ensures forall o: bool, n: bool :: PairedAsWritten(m, Shifted(p, ri), Shifted(p, ro), o, n, l) == Ok(2.0 * (ro - ri))
    ensures WallLength(m, Shifted(p, ri), Shifted(p, ro), l) == 2.0 * (ro - ri)
  {
    var hits := (Kept(-p + ri, l) + Kept(-p - ri, l)) + (Kept(-p + ro, l) + Kept(-p - ro, l));
    assert |hits| == 4 && PairedLength(hits) == Ok(((-p - ri) - (-p - ro)) + ((-p + ro) - (-p + ri))) by {
      NestedPaired(-p - ro, -p - ri, -p + ri, -p + ro, l);
    }
    forall o: bool, n: bool
      ensures PairedAsWritten(m, Shifted(p, ri), Shifted(p, ro), o, n, l) == Ok(2.0 * (ro - ri))
    {
      assert WithEndsAsWritten(hits, o, n, l) == hits;
      ShiftedAsWritten(m, p, ri, ro, o, n, l);
    }
    ShiftedCorrected(m, p, ri, ro, l);
  }

  /** AboutZResult for a ray whose result does not depend on whether its ends lie in the wall. */
  lemma AboutZAnyEnds(m: Math, ray: RayState, a: Annulus, e: real, p: real, asWritten: Result<real>, corrected: real)
    requires m.SqrtOfSquares() && AboutZ(a) && OnXAxis(ray, e, p)
    requires Upright(Shifted(p, a.innerRadius)) && Upright(Shifted(p, a.outerRadius))
    requires forall o: bool, n: bool :: PairedAsWritten(m, Shifted(p, a.innerRadius), Shifted(p, a.outerRadius), o, n, ray.length) == asWritten
    requires WallLength(m, Shifted(p, a.innerRadius), Shifted(p, a.outerRadius), ray.length) == corrected
    ensures AnnulusCrossingAsWritten(m, ray, a) == asWritten && AnnulusCrossing(m, ray, a) == corrected
  {
    var o, n := AnnulusContains(a, ray.origin), AnnulusContains(a, ray.end);
    AboutZResult(m, ray, a, e, p, o, n, asWritten, corrected);
  }

  /** A ray moving away from the axis beyond the outer radius, from (10, 0, 0) to (15, 0, 0) in the tests: nothing. */
  lemma AxisMissed(m: Math, a: Annulus, ray: RayState, e: real, p: real)
    requires m.SqrtOfSquares() && AboutZ(a) && a.innerRadius < a.outerRadius && OnXAxis(ray, e, p)
    requires a.outerRadius < p && 0.0 <= ray.length
    ensures AnnulusCrossingAsWritten(m, ray, a) == Ok(0.0) && AnnulusCrossing(m, ray, a) == 0.0
  {
    AxisEnds(a, ray, e, p);
    ShiftedMissed(m, p, a.innerRadius, a.outerRadius, ray.length);
    AboutZResult(m, ray, a, e, p, false, false, Ok(0.0), 0.0);
  }

  lemma ShiftedMissed(m: Math, p: real, ri: real, ro: real, l: real)
    requires m.SqrtOfSquares() && 0.0 < ri < ro < p && 0.0 <= l
    ensures Upright(Shifted(p, ri)) && Upright(Shifted(p, ro))
    ensures PairedAsWritten(m, Shifted(p, ri), Shifted(p, ro), false, false, l) == Ok(0.0)
    ensures WallLength(m, Shifted(p, ri), Shifted(p, ro), l) == 0.0
  {
    var hits := (Kept(-p + ri, l) + Kept(-p - ri, l)) + (Kept(-p + ro, l) + Kept(-p - ro, l));
    assert hits == [];
    assert WithEndsAsWritten(hits, false, false, l) == [];
    ShiftedAsWritten(m, p, ri, ro, false, false, l);
    ShiftedCorrected(m, p, ri, ro, l);
  }

  /**
   * From outside into the wall: the outer crossing at -p - ro and the
   * contained end, l + p + ro of wall.  The tests run it from (-20, 0, 0)
   * to (-3.5, 0, 0) (p = -20, length 16.5): 0.5 cm.
   */
  lemma AxisOutsideToWall(m: Math, a: Annulus, ray: RayState, e: real, p: real)
    requires m.SqrtOfSquares() && AboutZ(a) && a.innerRadius < a.outerRadius && OnXAxis(ray, e, p)
    requires 0.0 < -p - a.outerRadius <= ray.length < -p - a.innerRadius
    ensures var w := ray.length + p + a.outerRadius;
      AnnulusCrossingAsWritten(m, ray, a) == Ok(w) && AnnulusCrossing(m, ray, a) == w
  {
    var w := ray.length + p + a.outerRadius;
    AxisEnds(a, ray, e, p);
    ShiftedOutsideToWall(m, p, a.innerRadius, a.outerRadius, ray.length);
    AboutZResult(m, ray, a, e, p, false, true, Ok(w), w);
  }

  lemma ShiftedOutsideToWall(m: Math, p: real, ri: real, ro: real, l: real)
    requires m.SqrtOfSquares() && 0.0 < ri < ro && 0.0 < -p - ro <= l < -p - ri
    ensures Upright(Shifted(p, ri)) && Upright(Shifted(p, ro))
    ensures PairedAsWritten(m, Shifted(p, ri), Shifted(p, ro), false, true, l) == Ok(l + p + ro)
    ensures WallLength(m, Shifted(p, ri), Shifted(p, ro), l) == l + p + ro
  {
    var hits := (Kept(-p + ri, l) + Kept(-p - ri, l)) + (Kept(-p + ro, l) + Kept(-p - ro, l));
    assert hits == [-p - ro];
    assert PairedLength(WithEndsAsWritten(hits, false, true, l)) == Ok(l + p + ro) by {
      assert WithEndsAsWritten(hits, false, true, l) == [-p - ro, l];
      SortTwo(-p - ro, l);
    }
    ShiftedAsWritten(m, p, ri, ro, false, true, l);
    ShiftedCorrected(m, p, ri, ro, l);
  }

  /**
   * From the wall out past the outer radius, moving away from the axis:
   * the outer crossing at ro - p and the contained origin, ro - p of wall.
   * The tests run it from (-3.5, 0, 0) to (-20, 0, 0) (p = 3.5): 0.5 cm.
   */
  lemma AxisWallToOutside(m: Math, a: Annulus, ray: RayState, e: real, p: real)
    requires m.SqrtOfSquares() && AboutZ(a) && a.innerRadius < a.outerRadius && OnXAxis(ray, e, p)
    requires a.innerRadius < p < a.outerRadius && a.outerRadius - p < ray.length
    ensures var w := a.outerRadius - p;
      AnnulusCrossingAsWritten(m, ray, a) == Ok(w) && AnnulusCrossing(m, ray, a) == w
  {
    var w := a.outerRadius - p;
    AxisEnds(a, ray, e, p);
    ShiftedWallToOutside(m, p, a.innerRadius, a.outerRadius, ray.length);
    AboutZResult(m, ray, a, e, p, true, false, Ok(w), w);
  }

  lemma ShiftedWallToOutside(m: Math, p: real, ri: real, ro: real, l: real)
    requires m.SqrtOfSquares() && 0.0 < ri < p < ro && ro - p < l
    ensures Upright(Shifted(p, ri)) && Upright(Shifted(p, ro))
    ensures PairedAsWritten(m, Shifted(p, ri), Shifted(p, ro), true, false, l) == Ok(ro - p)
    ensures WallLength(m, Shifted(p, ri), Shifted(p, ro), l) == ro - p
  {
    var hits := (Kept(-p + ri, l) + Kept(-p - ri, l)) + (Kept(-p + ro, l) + Kept(-p - ro, l));
    assert hits == [-p + ro];
    assert PairedLength(WithEndsAsWritten(hits, true, false, l)) == Ok(ro - p) by {
      assert WithEndsAsWritten(hits, true, false, l) == [-p + ro, 0.0];
      SortTwo(0.0, -p + ro);
    }
    ShiftedAsWritten(m, p, ri, ro, true, false, l);
    ShiftedCorrected(m, p, ri, ro, l);
  }

  /**
   * From the hole into the wall: the inner crossing at ri - p and the
   * contained end, l + p - ri of wall.  The tests run it from (1, 0, 55)
   * to (2.5, 0, 55) (p = 1, length 1.5): 0.5 cm.
   */
  lemma AxisHoleToWall(m: Math, a: Annulus, ray: RayState, e: real, p: real)
    requires m.SqrtOfSquares() && AboutZ(a) && a.innerRadius < a.outerRadius && OnXAxis(ray, e, p)
    requires Abs(p) < a.innerRadius && -p + a.innerRadius <= ray.length < -p + a.outerRadius
    ensures var w := ray.length + p - a.innerRadius;
      AnnulusCrossingAsWritten(m, ray, a) == Ok(w) && AnnulusCrossing(m, ray, a) == w
  {
    var w := ray.length + p - a.innerRadius;
    AxisEnds(a, ray, e, p);
    ShiftedHoleToWall(m, p, a.innerRadius, a.outerRadius, ray.length);
    AboutZResult(m, ray, a, e, p, false, true, Ok(w), w);
  }

  lemma ShiftedHoleToWall(m: Math, p: real, ri: real, ro: real, l: real)
    requires m.SqrtOfSquares() && 0.0 < ri < ro && -ri < p < ri && -p + ri <= l < -p + ro
    ensures Upright(Shifted(p, ri)) && Upright(Shifted(p, ro))
    ensures PairedAsWritten(m, Shifted(p, ri), Shifted(p, ro), false, true, l) == Ok(l + p - ri)
    ensures WallLength(m, Shifted(p, ri), Shifted(p, ro), l) == l + p - ri
  {
    var hits := (Kept(-p + ri, l) + Kept(-p - ri, l)) + (Kept(-p + ro, l) + Kept(-p - ro, l));
    assert hits == [-p + ri];
    assert PairedLength(WithEndsAsWritten(hits, false, true, l)) == Ok(l + p - ri) by {
      assert WithEndsAsWritten(hits, false, true, l) == [-p + ri, l];
      SortTwo(-p + ri, l);
    }
    ShiftedAsWritten(m, p, ri, ro, false, true, l);
    ShiftedCorrected(m, p, ri, ro, l);
  }

  /**
   * From the wall, moving toward the axis, into the hole: the inner
   * crossing at -p - ri and the contained origin, -p - ri of wall.  The
   * tests run it from (2.5, 0, 55) to (1, 0, 55) (p = -2.5): 0.5 cm.
   */
  lemma AxisWallToHole(m: Math, a: Annulus, ray: RayState, e: real, p: real)
    requires m.SqrtOfSquares() && AboutZ(a) && a.innerRadius < a.outerRadius && OnXAxis(ray, e, p)
    requires -a.outerRadius < p < -a.innerRadius && -p - a.innerRadius < ray.length < -p + a.innerRadius
    ensures var w := -p - a.innerRadius;
      AnnulusCrossingAsWritten(m, ray, a) == Ok(w) && AnnulusCrossing(m, ray, a) == w
  {
    AxisEnds(a, ray, e, p);
    ShiftedWallToHole(m, p, a.innerRadius, a.outerRadius, ray.length);
    AboutZResult(m, ray, a, e, p, true, false, Ok(-p - a.innerRadius), -p - a.innerRadius);
  }

  lemma ShiftedWallToHole(m: Math, p: real, ri: real, ro: real, l: real)
    requires m.SqrtOfSquares() && 0.0 < ri < ro && -ro < p < -ri && -p - ri < l < -p + ri
    ensures Upright(Shifted(p, ri)) && Upright(Shifted(p, ro))
    ensures PairedAsWritten(m, Shifted(p, ri), Shifted(p, ro), true, false, l) == Ok(-p - ri)
    ensures WallLength(m, Shifted(p, ri), Shifted(p, ro), l) == -p - ri
  {
    var hits := (Kept(-p + ri, l) + Kept(-p - ri, l)) + (Kept(-p + ro, l) + Kept(-p - ro, l));
    assert hits == [-p - ri];
    assert PairedLength(WithEndsAsWritten(hits, true, false, l)) == Ok(-p - ri) by {
      assert WithEndsAsWritten(hits, true, false, l) == [-p - ri, 0.0];
      SortTwo(0.0, -p - ri);
    }
    ShiftedAsWritten(m, p, ri, ro, true, false, l);
    ShiftedCorrected(m, p, ri, ro, l);
  }

  /**
   * From the wall, through the hole, into the wall on the other side: the
   * two inner crossings are the only hits, so the written routine adds no
   * endpoints and measures the hole, 2 ri, instead of the wall, l - 2 ri.
   * From (-3, 0, 0) to (3, 0, 0) through radii 2 and 4 (p = -3, length 6)
   * it reports 4 cm for 2 cm of wall.
   */
  lemma AsWrittenMeasuresHole(m: Math, a: Annulus, ray: RayState, e: real, p: real)
    requires m.SqrtOfSquares() && AboutZ(a) && a.innerRadius < a.outerRadius && OnXAxis(ray, e, p)
    requires -a.outerRadius < p < -a.innerRadius && -p + a.innerRadius < ray.length < -p + a.outerRadius
    ensures AnnulusCrossingAsWritten(m, ray, a) == Ok(2.0 * a.innerRadius)
    ensures AnnulusCrossing(m, ray, a) == ray.length - 2.0 * a.innerRadius
  {
    var o, n := AnnulusContains(a, ray.origin), AnnulusContains(a, ray.end);
    ShiftedMeasuresHole(m, p, a.innerRadius, a.outerRadius, o, n, ray.length);
    AboutZResult(m, ray, a, e, p, o, n, Ok(2.0 * a.innerRadius), ray.length - 2.0 * a.innerRadius);
  }

  /** Both hole-surface roots lie on the ray and neither wall-surface root does. */
  lemma HoleHits(p: real, ri: real, ro: real, l: real)
    requires 0.0 < ri < ro && -ro < p < -ri && -p + ri < l < -p + ro
    ensures (Kept(-p + ri, l) + Kept(-p - ri, l)) + (Kept(-p + ro, l) + Kept(-p - ro, l)) == [-p + ri, -p - ri]
  {
    assert Kept(-p + ri, l) == [-p + ri] && Kept(-p - ri, l) == [-p - ri];
    assert Kept(-p + ro, l) == [] && Kept(-p - ro, l) == [];
  }

  /** Two crossings, in either order, measure the distance between them. */
  lemma PairOfTwo(lo: real, hi: real)
    requires lo <= hi
    ensures PairedLength([hi, lo]) == Ok(hi - lo)
  {
    SortTwo(lo, hi);
  }

  lemma ShiftedMeasuresHole(m: Math, p: real, ri: real, ro: real, o: bool, n: bool, l: real)
    requires m.SqrtOfSquares() && 0.0 < ri < ro && -ro < p < -ri && -p + ri < l < -p + ro
    ensures Upright(Shifted(p, ri)) && Upright(Shifted(p, ro))
    ensures PairedAsWritten(m, Shifted(p, ri), Shifted(p, ro), o, n, l) == Ok(2.0 * ri)
    ensures WallLength(m, Shifted(p, ri), Shifted(p, ro), l) == l - 2.0 * ri
  {
    var hits := (Kept(-p + ri, l) + Kept(-p - ri, l)) + (Kept(-p + ro, l) + Kept(-p - ro, l));
    HoleHits(p, ri, ro, l);
    assert WithEndsAsWritten(hits, o, n, l) == [-p + ri, -p - ri];
    PairOfTwo(-p - ri, -p + ri);
    ShiftedAsWritten(m, p, ri, ro, o, n, l);
    ShiftedCorrected(m, p, ri, ro, l);
  }

  /**
   * From a point on the outer surface, moving toward the axis, to a point
   * in the wall: the outer crossing at 0 and the two contained ends make
   * three values, and the written routine raises where the whole ray lies
   * in the wall.  From (4, 0, 0) to (3, 0, 0) through radii 2 and 4
   * (p = -4, length 1) it raises for 1 cm of wall.
   */
  lemma AsWrittenRaisesOnSurface(m: Math, a: Annulus, ray: RayState, e: real, p: real)
    requires m.SqrtOfSquares() && AboutZ(a) && a.innerRadius < a.outerRadius && OnXAxis(ray, e, p)
    requires p == -a.outerRadius && 0.0 < ray.length < a.outerRadius - a.innerRadius
    ensures AnnulusCrossingAsWritten(m, ray, a) == Err(ValueError(ValidCrossings))
    ensures AnnulusCrossing(m, ray, a) == ray.length
  {
    AxisEnds(a, ray, e, p);
    ShiftedRaisesOnSurface(m, p, a.innerRadius, a.outerRadius, ray.length);
    AboutZResult(m, ray, a, e, p, true, true, Err(ValueError(ValidCrossings)), ray.length);
  }

  lemma ShiftedRaisesOnSurface(m: Math, p: real, ri: real, ro: real, l: real)
    requires m.SqrtOfSquares() && 0.0 < ri < ro && p == -ro && 0.0 < l < ro - ri
    ensures Upright(Shifted(p, ri)) && Upright(Shifted(p, ro))
    ensures PairedAsWritten(m, Shifted(p, ri), Shifted(p, ro), true, true, l) == Err(ValueError(ValidCrossings))
    ensures WallLength(m, Shifted(p, ri), Shifted(p, ro), l) == l
  {
    var hits := (Kept(-p + ri, l) + Kept(-p - ri, l)) + (Kept(-p + ro, l) + Kept(-p - ro, l));
    assert hits == [0.0];
    assert |WithEndsAsWritten(hits, true, true, l)| == 3;
    ShiftedAsWritten(m, p, ri, ro, true, true, l);
    ShiftedCorrected(m, p, ri, ro, l);
  }
}
