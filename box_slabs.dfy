/**
 * `Box._intersect_axis_aligned_box` on a ray of any direction: the slab
 * method's clipped parameter interval is the exact set of parameters at
 * which the ray's line is inside the box, so the crossing length is the
 * overlap of that interval with the ray.
 */
module BoxSlabs {
  import opened Wrappers
  import opened RealMath
  import opened Vectors
  import opened ExtReals
  import opened Rays
  import opened Geometry
  import opened Crossings
  import opened Boxes


  /** The inverse direction and the signs `_regularize` derives from the direction. */
  predicate Derived(ray: RayState)
  {
    ray.invdir == ExtVec3(Recip(ray.dir.x), Recip(ray.dir.y), Recip(ray.dir.z)) &&
    ray.sign == [SignOf(ray.invdir.x), SignOf(ray.invdir.y), SignOf(ray.invdir.z)]
  }

  /** Every ray built from two points carries the derived fields. */
  lemma RayOfDerived(m: Math, start: Vec3, end: Vec3)
    ensures Derived(RayOf(m, start, end)) && WellSigned(RayOf(m, start, end))
  {
  }

  /** A box with a positive extent along every axis. */
  predicate Solid(b: Box)
  {
    b.Low().x < b.High().x && b.Low().y < b.High().y && b.Low().z < b.High().z
  }

  /**
   * The ray does not run in the plane of a face: along every axis its
   * direction leaves unchanged, its origin lies off both faces.
   */
  predicate OffFacePlanes(ray: RayState, b: Box)
  {
    (ray.dir.x == 0.0 ==> ray.origin.x != b.Low().x && ray.origin.x != b.High().x) &&
    (ray.dir.y == 0.0 ==> ray.origin.y != b.Low().y && ray.origin.y != b.High().y) &&
    (ray.dir.z == 0.0 ==> ray.origin.z != b.Low().z && ray.origin.z != b.High().z)
  }

  /**
   * The shapes a slab's parameter interval takes: finite and ordered, the
   * whole line, or empty (both ends at the same infinity).
   */
  predicate Proper(s: (ExtReal, ExtReal))
  {
    Finite(s) || s == (NegInf, PosInf) || s == (NegInf, NegInf) || s == (PosInf, PosInf)
  }

  predicate Finite(s: (ExtReal, ExtReal))
  {
    s.0.Fin? && s.1.Fin? && s.0.r <= s.1.r
  }

  /** `t` lies in the interval under the IEEE comparisons the test makes. */
  predicate InSpan(s: (ExtReal, ExtReal), t: real)
  {
    !Less(Fin(t), s.0) && !Less(s.1, Fin(t))
  }

  /** One clipping step of the test: None when the two intervals are seen to be disjoint. */
  function Clip(s: (ExtReal, ExtReal), u: (ExtReal, ExtReal)): Option<(ExtReal, ExtReal)>
  {
    if Less(u.1, s.0) || Less(s.1, u.0) then None
    else Some((if Less(s.0, u.0) then u.0 else s.0, if Less(u.1, s.1) then u.1 else s.1))
  }

  /** The test clips the x interval by the y interval, then the result by the z interval. */
  lemma BoxParametersClip(ray: RayState, b: Box)
    requires WellSigned(ray)
    ensures BoxParameters(ray, b) ==
      match Clip(AxisInterval(ray, b, 0), AxisInterval(ray, b, 1))
      case None => None
      case Some(s) => Clip(s, AxisInterval(ray, b, 2))
  {
  }

  /**
   * Clipping two proper intervals finds their intersection: None exactly
   * when they share no parameter, and a finite interval whenever either
   * of them is finite.
   */
  lemma ClipMeaning(s: (ExtReal, ExtReal), u: (ExtReal, ExtReal))
    requires Proper(s) && Proper(u)
    ensures Clip(s, u).None? ==> forall t :: !(InSpan(s, t) && InSpan(u, t))
    ensures Clip(s, u).Some? ==> Proper(Clip(s, u).value)
    ensures Clip(s, u).Some? ==> forall t :: InSpan(Clip(s, u).value, t) <==> InSpan(s, t) && InSpan(u, t)
    ensures Clip(s, u).Some? && (Finite(s) || Finite(u)) ==> Finite(Clip(s, u).value)
  {
  }

  /** A slab's parameter interval along one axis, from origin `o`, direction `d` and faces `lo` < `hi`. */
  function SlabSpan(o: real, d: real, lo: real, hi: real): (ExtReal, ExtReal)
  {
    var inv := Recip(d);
    if SignOf(inv) == 0 then (Times(lo - o, inv), Times(hi - o, inv))
    else (Times(hi - o, inv), Times(lo - o, inv))
  }

  /**
   * Off the face planes, a slab's interval holds exactly the parameters at
   * which `o + d t` lies between the faces; it is finite when `d` is not 0.
   */
  lemma SlabSpanMeaning(o: real, d: real, lo: real, hi: real)
    requires lo < hi && (d == 0.0 ==> o != lo && o != hi)
    ensures Proper(SlabSpan(o, d, lo, hi))
    ensures d != 0.0 ==> Finite(SlabSpan(o, d, lo, hi))
    ensures forall t :: InSpan(SlabSpan(o, d, lo, hi), t) <==> lo <= o + d * t <= hi
  {
    if d > 0.0 {
      SlabRising(o, d, lo, hi);
    } else if d < 0.0 {
      SlabFalling(o, d, lo, hi);
    } else {
      SlabFlat(o, d, lo, hi);
    }
  }

  /** A rising coordinate meets the low face first. */
  lemma SlabRising(o: real, d: real, lo: real, hi: real)
    requires lo < hi && 0.0 < d
    ensures Finite(SlabSpan(o, d, lo, hi))
    ensures forall t :: InSpan(SlabSpan(o, d, lo, hi), t) <==> lo <= o + d * t <= hi
  {
    var p, q := (lo - o) * (1.0 / d), (hi - o) * (1.0 / d);
    QuotientTimes(lo - o, d);
    QuotientTimes(hi - o, d);
    SpanRisingIs(o, d, lo, hi);
    forall t ensures InSpan(SlabSpan(o, d, lo, hi), t) <==> lo <= o + d * t <= hi {
      RisingAt(p, q, d, o, lo, hi, t);
    }
    RisingAt(p, q, d, o, lo, hi, p);
  }

  lemma RisingAt(p: real, q: real, d: real, o: real, lo: real, hi: real, t: real)
    requires 0.0 < d && p * d == lo - o && q * d == hi - o && lo < hi
    ensures p <= t <= q <==> lo <= o + d * t <= hi
    ensures p <= q
  {
    assert (o + d * t) - lo == d * (t - p);
    assert hi - (o + d * t) == d * (q - t);
    assert hi - lo == d * (q - p);
    SignOfProduct(d, t - p);
    SignOfProduct(d, q - t);
    SignOfProduct(d, q - p);
  }

  /** A falling coordinate meets the high face first. */
  lemma SlabFalling(o: real, d: real, lo: real, hi: real)
    requires lo < hi && d < 0.0
    ensures Finite(SlabSpan(o, d, lo, hi))
    ensures forall t :: InSpan(SlabSpan(o, d, lo, hi), t) <==> lo <= o + d * t <= hi
  {
    var p, q := (hi - o) * (1.0 / d), (lo - o) * (1.0 / d);
    QuotientTimes(lo - o, d);
    QuotientTimes(hi - o, d);
    SpanFallingIs(o, d, lo, hi);
    forall t ensures InSpan(SlabSpan(o, d, lo, hi), t) <==> lo <= o + d * t <= hi {
      FallingAt(p, q, d, o, lo, hi, t);
    }
    FallingAt(p, q, d, o, lo, hi, p);
  }

  lemma FallingAt(p: real, q: real, d: real, o: real, lo: real, hi: real, t: real)
    requires d < 0.0 && p * d == hi - o && q * d == lo - o && lo < hi
    ensures p <= t <= q <==> lo <= o + d * t <= hi
    ensures p <= q
  {
    assert hi - (o + d * t) == (-d) * (t - p);
    assert (o + d * t) - lo == (-d) * (q - t);
    assert hi - lo == (-d) * (q - p);
    SignOfProduct(-d, t - p);
    SignOfProduct(-d, q - t);
    SignOfProduct(-d, q - p);
  }

  /** A coordinate that does not move is between the faces everywhere or nowhere. */
  lemma SlabFlat(o: real, d: real, lo: real, hi: real)
    requires lo < hi && d == 0.0 && o != lo && o != hi
    ensures Proper(SlabSpan(o, d, lo, hi))
    ensures forall t :: InSpan(SlabSpan(o, d, lo, hi), t) <==> lo <= o + d * t <= hi
  {
    forall t ensures InSpan(SlabSpan(o, d, lo, hi), t) <==> lo <= o + d * t <= hi {
      assert d * t == 0.0;
    }
  }

  lemma SpanRisingIs(o: real, d: real, lo: real, hi: real)
    requires 0.0 < d
    ensures SlabSpan(o, d, lo, hi) == (Fin((lo - o) * (1.0 / d)), Fin((hi - o) * (1.0 / d)))
  {
    RecipSign(d);
    var inv := Recip(d);
    assert inv == Fin(1.0 / d);
    assert SignOf(inv) == 0;
    assert Times(lo - o, inv) == Fin((lo - o) * (1.0 / d));
    assert Times(hi - o, inv) == Fin((hi - o) * (1.0 / d));
  }

  lemma SpanFallingIs(o: real, d: real, lo: real, hi: real)
    requires d < 0.0
    ensures SlabSpan(o, d, lo, hi) == (Fin((hi - o) * (1.0 / d)), Fin((lo - o) * (1.0 / d)))
  {
    RecipSign(d);
    var inv := Recip(d);
    assert inv == Fin(1.0 / d);
    assert SignOf(inv) == 1;
    assert Times(lo - o, inv) == Fin((lo - o) * (1.0 / d));
    assert Times(hi - o, inv) == Fin((hi - o) * (1.0 / d));
  }

  /** `1 / d` has the sign of `d`. */
  lemma RecipSign(d: real)
    requires d != 0.0
    ensures Recip(d) == Fin(1.0 / d)
    ensures 0.0 < d ==> 0.0 < 1.0 / d
    ensures d < 0.0 ==> 1.0 / d < 0.0
  {
    assert d * (1.0 / d) == 1.0;
    if 0.0 < d {
      SignOfProduct(d, 1.0 / d);
    } else {
      SignOfProduct(-d, -(1.0 / d));
      assert (-d) * (-(1.0 / d)) == 1.0;
    }
  }

  /** `k / d` times `d` is `k`. */
  lemma QuotientTimes(k: real, d: real)
    requires d != 0.0
    ensures k * (1.0 / d) * d == k
  {
  }

  lemma SignOfProduct(d: real, x: real)
    requires 0.0 < d
    ensures 0.0 <= d * x <==> 0.0 <= x
  {
    if x < 0.0 {
      PositiveProduct(d, -x);
    } else {
      MulLeft(0.0, x, d);
    }
  }

  /** Along each axis the test's interval is that axis's slab interval. */
  lemma AxesAreSlabs(ray: RayState, b: Box)
    requires Derived(ray)
    ensures WellSigned(ray)
    ensures AxisInterval(ray, b, 0) == SlabSpan(ray.origin.x, ray.dir.x, b.Low().x, b.High().x)
    ensures AxisInterval(ray, b, 1) == SlabSpan(ray.origin.y, ray.dir.y, b.Low().y, b.High().y)
    ensures AxisInterval(ray, b, 2) == SlabSpan(ray.origin.z, ray.dir.z, b.Low().z, b.High().z)
  {
  }

  /**
   * Clipping the x interval by the y interval and the result by the z
   * interval, as the test does, finds the parameters common to all three.
   */
  function ClipAll(sx: (ExtReal, ExtReal), sy: (ExtReal, ExtReal), sz: (ExtReal, ExtReal)): Option<(ExtReal, ExtReal)>
  {
    match Clip(sx, sy)
    case None => None
    case Some(s) => Clip(s, sz)
  }

  /** With one finite axis, the clipped interval is finite and holds exactly the common parameters. */
  lemma ClipAllMeaning(sx: (ExtReal, ExtReal), sy: (ExtReal, ExtReal), sz: (ExtReal, ExtReal))
    requires Proper(sx) && Proper(sy) && Proper(sz) && (Finite(sx) || Finite(sy) || Finite(sz))
    ensures ClipAll(sx, sy, sz).None? ==> forall t :: !(InSpan(sx, t) && InSpan(sy, t) && InSpan(sz, t))
    ensures ClipAll(sx, sy, sz).Some? ==> Finite(ClipAll(sx, sy, sz).value)
    ensures ClipAll(sx, sy, sz).Some? ==> forall t ::
      ClipAll(sx, sy, sz).value.0.r <= t <= ClipAll(sx, sy, sz).value.1.r <==> InSpan(sx, t) && InSpan(sy, t) && InSpan(sz, t)
  {
    ClipMeaning(sx, sy);
    if Clip(sx, sy).Some? {
      ClipMeaning(Clip(sx, sy).value, sz);
    }
  }

  /** A point of the ray is inside the box exactly when its parameter lies in all three slab intervals. */
  lemma ContainsBySpans(ray: RayState, b: Box)
    requires Solid(b) && OffFacePlanes(ray, b)
    ensures forall t :: BoxContains(b, PointAt(ray, t)) <==>
      InSpan(SlabSpan(ray.origin.x, ray.dir.x, b.Low().x, b.High().x), t) &&
      InSpan(SlabSpan(ray.origin.y, ray.dir.y, b.Low().y, b.High().y), t) &&
      InSpan(SlabSpan(ray.origin.z, ray.dir.z, b.Low().z, b.High().z), t)
  {
    forall t
      ensures BoxContains(b, PointAt(ray, t)) <==>
        InSpan(SlabSpan(ray.origin.x, ray.dir.x, b.Low().x, b.High().x), t) &&
        InSpan(SlabSpan(ray.origin.y, ray.dir.y, b.Low().y, b.High().y), t) &&
        InSpan(SlabSpan(ray.origin.z, ray.dir.z, b.Low().z, b.High().z), t)
    {
      ContainsAt(ray, b, t);
    }
  }

  lemma ContainsAt(ray: RayState, b: Box, t: real)
    requires Solid(b) && OffFacePlanes(ray, b)
    ensures BoxContains(b, PointAt(ray, t)) <==>
      InSpan(SlabSpan(ray.origin.x, ray.dir.x, b.Low().x, b.High().x), t) &&
      InSpan(SlabSpan(ray.origin.y, ray.dir.y, b.Low().y, b.High().y), t) &&
      InSpan(SlabSpan(ray.origin.z, ray.dir.z, b.Low().z, b.High().z), t)
  {
    var p, lo, hi := PointAt(ray, t), b.Low(), b.High();
    SlabHas(ray.origin.x, ray.dir.x, lo.x, hi.x, t, p.x);
    SlabHas(ray.origin.y, ray.dir.y, lo.y, hi.y, t, p.y);
    SlabHas(ray.origin.z, ray.dir.z, lo.z, hi.z, t, p.z);
  }

  /** The coordinate `c` of the point at `t` lies between the faces exactly when `t` lies in the slab interval. */
  lemma SlabHas(o: real, d: real, lo: real, hi: real, t: real, c: real)
    requires lo < hi && (d == 0.0 ==> o != lo && o != hi) && c == o + d * t
    ensures lo <= c <= hi <==> InSpan(SlabSpan(o, d, lo, hi), t)
  {
    SlabSpanMeaning(o, d, lo, hi);
  }

  /** A direction other than zero has an axis along which the slab interval is finite. */
  lemma SomeSpanFinite(ray: RayState, b: Box)
    requires Solid(b) && OffFacePlanes(ray, b) && ray.dir != Zero
    ensures var o, d := ray.origin, ray.dir;
      Proper(SlabSpan(o.x, d.x, b.Low().x, b.High().x)) &&
      Proper(SlabSpan(o.y, d.y, b.Low().y, b.High().y)) &&
      Proper(SlabSpan(o.z, d.z, b.Low().z, b.High().z)) &&
      (Finite(SlabSpan(o.x, d.x, b.Low().x, b.High().x)) ||
       Finite(SlabSpan(o.y, d.y, b.Low().y, b.High().y)) ||
       Finite(SlabSpan(o.z, d.z, b.Low().z, b.High().z)))
  {
    SlabSpanMeaning(ray.origin.x, ray.dir.x, b.Low().x, b.High().x);
    SlabSpanMeaning(ray.origin.y, ray.dir.y, b.Low().y, b.High().y);
    SlabSpanMeaning(ray.origin.z, ray.dir.z, b.Low().z, b.High().z);
  }

  /**
   * Off the face planes of a solid box, the test's result is the exact set
   * of parameters at which the ray's line is inside the box: None when the
   * line misses it, otherwise a finite interval [lo, hi].
   */
  lemma BoxParametersMeaning(ray: RayState, b: Box)
    requires Derived(ray) && Solid(b) && OffFacePlanes(ray, b) && ray.dir != Zero
    ensures WellSigned(ray)
    ensures BoxParameters(ray, b).None? ==> forall t :: !BoxContains(b, PointAt(ray, t))
    ensures BoxParameters(ray, b).Some? ==>
      Finite(BoxParameters(ray, b).value) &&
      BoxContains(b, PointAt(ray, BoxParameters(ray, b).value.0.r)) &&
      forall t :: BoxContains(b, PointAt(ray, t)) <==>
        BoxParameters(ray, b).value.0.r <= t <= BoxParameters(ray, b).value.1.r
  {
    AxesAreSlabs(ray, b);
    BoxParametersClip(ray, b);
    var o, d := ray.origin, ray.dir;
    var sx := SlabSpan(o.x, d.x, b.Low().x, b.High().x);
    var sy := SlabSpan(o.y, d.y, b.Low().y, b.High().y);
    var sz := SlabSpan(o.z, d.z, b.Low().z, b.High().z);
    assert BoxParameters(ray, b) == ClipAll(sx, sy, sz);
    SomeSpanFinite(ray, b);
    ClipAllMeaning(sx, sy, sz);
    ContainsBySpans(ray, b);
  }

  /** The start of a ray is its point at parameter 0. */
  lemma OriginAtZero(ray: RayState)
    ensures PointAt(ray, 0.0) == ray.origin
  {
  }

  /**
   * For a regular ray off the face planes of a solid box, whatever the
   * direction: when the points inside the box are those with parameters in
   * [lo, hi], the corrected crossing is the overlap of [lo, hi] with the
   * ray and the written one agrees except in the two boundary cases; when
   * no point of the line is inside, both are 0.
   */
  lemma BoxCrossingIsOverlap(m: Math, ray: RayState, b: Box, lo: real, hi: real)
    requires m.SqrtOfSquares() && Regular(ray) && 0.0 < ray.length && Derived(ray) && Solid(b) && OffFacePlanes(ray, b)
    requires lo <= hi && forall t :: BoxContains(b, PointAt(ray, t)) <==> lo <= t <= hi
    ensures WellSigned(ray)
    ensures BoxCrossing(m, ray, b) == Ok(Overlap(lo, hi, ray.length))
    ensures BoxCrossingAsWritten(m, ray, b) ==
      if RootAtEndpoint(lo, hi, ray.length) then Err(ValueError(TwoCrossings)) else Ok(Overlap(lo, hi, ray.length))
  {
    UnitNotZero(ray);
    BoxParametersMeaning(ray, b);
    assert BoxContains(b, PointAt(ray, lo));
    var (p, q) := BoxParameters(ray, b).value;
    assert BoxContains(b, PointAt(ray, p.r)) && BoxContains(b, PointAt(ray, q.r)) && BoxContains(b, PointAt(ray, hi));
    assert p == Fin(lo) && q == Fin(hi);
    IntersectFinite(ray, b, lo, hi);
    OriginAtZero(ray);
    ExactDistances(m, ray);
    if lo < hi {
      CrossingFromFaces(m, ray, b, lo, hi);
    } else {
      TouchingCrossing(m, ray, b, lo);
    }
  }

  lemma UnitNotZero(ray: RayState)
    requires Regular(ray) && 0.0 < ray.length
    ensures ray.dir != Zero
  {
  }

  /** A line that only touches the box, at one parameter, crosses nothing. */
  lemma TouchingCrossing(m: Math, ray: RayState, b: Box, t: real)
    requires DistancesExact(m, ray) && Regular(ray) && 0.0 < ray.length && WellSigned(ray)
    requires BoxIntersect(ray, b) == HitPoints(ray, t, t)
    requires BoxContains(b, ray.origin) == (t == 0.0) && BoxContains(b, ray.end) == (t == ray.length)
    ensures BoxCrossing(m, ray, b) == Ok(Overlap(t, t, ray.length)) && Overlap(t, t, ray.length) == 0.0
    ensures BoxCrossingAsWritten(m, ray, b) == Ok(0.0)
  {
    if 0.0 <= t <= ray.length {
      assert Norm(m, Sub(PointAt(ray, t), PointAt(ray, t))) == 0.0;
    }
  }

  /** Any line that misses the box crosses nothing, both ways. */
  lemma MissedBox(m: Math, ray: RayState, b: Box)
    requires Regular(ray) && 0.0 < ray.length && Derived(ray) && Solid(b) && OffFacePlanes(ray, b)
    requires forall t :: !BoxContains(b, PointAt(ray, t))
    ensures WellSigned(ray)
    ensures BoxCrossing(m, ray, b) == Ok(0.0) && BoxCrossingAsWritten(m, ray, b) == Ok(0.0)
  {
    UnitNotZero(ray);
    BoxParametersMeaning(ray, b);
    OriginAtZero(ray);
    assert !BoxContains(b, PointAt(ray, 0.0)) && !BoxContains(b, PointAt(ray, ray.length));
  }

  /**
   * A ray lying in a face plane: along y on the face x = -1 of the box
   * with corners (-1, -1, -1) and (1, 1, 1), from y = -5 to y = 5. The
   * x parameter of the near face is 0 times infinity, NaN, which no
   * comparison moves, so the entry point at y = -1 is dropped: the written
   * crossing raises and the corrected one finds nothing, though the 2 cm
   * from y = -1 to y = 1 lie on the box.
   */
  lemma FacePlaneRay(m: Math)
    requires m.SqrtOfSquares()
    ensures Regular(FaceRay) && Derived(FaceRay) && WellSigned(FaceRay)
    ensures Solid(CubeBox) && !OffFacePlanes(FaceRay, CubeBox)
    ensures forall t :: BoxContains(CubeBox, PointAt(FaceRay, t)) <==> 4.0 <= t <= 6.0
    ensures BoxParameters(FaceRay, CubeBox) == Some((NaN, Fin(6.0)))
    ensures BoxCrossingAsWritten(m, FaceRay, CubeBox) == Err(ValueError(TwoCrossings))
    ensures BoxCrossing(m, FaceRay, CubeBox) == Ok(0.0)
  {
    FaceRayShape();
    FaceRayInside();
    FaceRayParameters();
    FaceRayIntersect();
    OnePointCrossing(m, FaceRay, CubeBox);
  }

  /** Only the exit point, at y = 1, is found. */
  lemma FaceRayIntersect()
    ensures WellSigned(FaceRay)
    ensures |BoxIntersect(FaceRay, CubeBox)| == 1
    ensures !BoxContains(CubeBox, FaceRay.origin) && !BoxContains(CubeBox, FaceRay.end)
  {
    FaceRayParameters();
    CubeCorners();
    assert FaceRay.length == 10.0 && FaceRay.origin == Vec3(-1.0, -5.0, 0.0) && FaceRay.end == Vec3(-1.0, 5.0, 0.0);
    assert BoxIntersect(FaceRay, CubeBox) == [PointAt(FaceRay, 6.0)];
  }

  /** One point found and neither end inside: the written routine raises, the corrected one finds nothing. */
  lemma OnePointCrossing(m: Math, ray: RayState, b: Box)
    requires WellSigned(ray) && |BoxIntersect(ray, b)| == 1
    requires !BoxContains(b, ray.origin) && !BoxContains(b, ray.end)
    ensures BoxCrossingAsWritten(m, ray, b) == Err(ValueError(TwoCrossings))
    ensures BoxCrossing(m, ray, b) == Ok(0.0)
  {
  }

  /** The ray of `FacePlaneRay`, with the fields `_regularize` gives it. */
  const FaceRay := AlongY(-1.0, -5.0, 5.0, 0.0)

  /** The ray from (x, a, z) to (x, c, z) with a < c, as the ray constructor derives it. */
  function AlongY(x: real, a: real, c: real, z: real): RayState
  {
    RayState(Vec3(x, a, z), Vec3(x, c, z), c - a, Vec3(0.0, 1.0, 0.0), ExtVec3(PosInf, Fin(1.0), PosInf), [0, 0, 0])
  }

  lemma AlongYRegular(x: real, a: real, c: real, z: real)
    requires a < c
    ensures Regular(AlongY(x, a, c, z)) && Derived(AlongY(x, a, c, z)) && WellSigned(AlongY(x, a, c, z))
  {
    assert Recip(1.0) == Fin(1.0);
  }

  /** The box of `FacePlaneRay`: corners (-1, -1, -1) and (1, 1, 1). */
  const CubeBox := Box(Vec3(0.0, 0.0, 0.0), Vec3(2.0, 2.0, 2.0))

  lemma FaceRayShape()
    ensures Regular(FaceRay) && Derived(FaceRay) && WellSigned(FaceRay)
    ensures Solid(CubeBox) && !OffFacePlanes(FaceRay, CubeBox)
    ensures CubeBox.Low() == Vec3(-1.0, -1.0, -1.0) && CubeBox.High() == Vec3(1.0, 1.0, 1.0)
  {
    CubeCorners();
    FaceRayRegular();
  }

  lemma CubeCorners()
    ensures CubeBox.Low() == Vec3(-1.0, -1.0, -1.0) && CubeBox.High() == Vec3(1.0, 1.0, 1.0)
  {
  }

  lemma FaceRayRegular()
    ensures Regular(FaceRay) && Derived(FaceRay) && WellSigned(FaceRay)
  {
    AlongYRegular(-1.0, -5.0, 5.0, 0.0);
  }

  lemma FaceRayInside()
    ensures forall t :: BoxContains(CubeBox, PointAt(FaceRay, t)) <==> 4.0 <= t <= 6.0
  {
    CubeCorners();
    forall t ensures BoxContains(CubeBox, PointAt(FaceRay, t)) <==> 4.0 <= t <= 6.0 {
      AlongYPoint(-1.0, -5.0, 5.0, 0.0, t);
    }
  }

  lemma AlongYPoint(x: real, a: real, c: real, z: real, t: real)
    ensures PointAt(AlongY(x, a, c, z), t) == Vec3(x, a + t, z)
  {
  }

  lemma FaceRayParameters()
    ensures WellSigned(FaceRay)
    ensures BoxParameters(FaceRay, CubeBox) == Some((NaN, Fin(6.0)))
  {
    FaceRayIntervals();
    var (tmin, tmax) := AxisInterval(FaceRay, CubeBox, 0);
    var (tymin, tymax) := AxisInterval(FaceRay, CubeBox, 1);
    assert !Less(tymax, tmin) && !Less(tmax, tymin);
    assert !Less(tmin, tymin) && Less(tymax, tmax);
  }

  /** Along x the ray lies on the low face: the first x parameter is 0 times infinity. */
  lemma FaceRayIntervals()
    ensures WellSigned(FaceRay)
    ensures AxisInterval(FaceRay, CubeBox, 0) == (NaN, PosInf)
    ensures AxisInterval(FaceRay, CubeBox, 1) == (Fin(4.0), Fin(6.0))
    ensures AxisInterval(FaceRay, CubeBox, 2) == (NegInf, PosInf)
  {
    FaceRayRegular();
    FaceRayAxes();
    FaceRaySpans();
  }

  lemma FaceRayAxes()
    ensures WellSigned(FaceRay)
    ensures AxisInterval(FaceRay, CubeBox, 0) == SlabSpan(-1.0, 0.0, -1.0, 1.0)
    ensures AxisInterval(FaceRay, CubeBox, 1) == SlabSpan(-5.0, 1.0, -1.0, 1.0)
    ensures AxisInterval(FaceRay, CubeBox, 2) == SlabSpan(0.0, 0.0, -1.0, 1.0)
  {
    CubeCorners();
    AlongYAxes(-1.0, -5.0, 5.0, 0.0, CubeBox);
  }

  lemma AlongYAxes(x: real, a: real, c: real, z: real, b: Box)
    requires a < c
    ensures WellSigned(AlongY(x, a, c, z))
    ensures AxisInterval(AlongY(x, a, c, z), b, 0) == SlabSpan(x, 0.0, b.Low().x, b.High().x)
    ensures AxisInterval(AlongY(x, a, c, z), b, 1) == SlabSpan(a, 1.0, b.Low().y, b.High().y)
    ensures AxisInterval(AlongY(x, a, c, z), b, 2) == SlabSpan(z, 0.0, b.Low().z, b.High().z)
  {
    AlongYRegular(x, a, c, z);
    AxesAreSlabs(AlongY(x, a, c, z), b);
  }

  lemma FaceRaySpans()
    ensures SlabSpan(-1.0, 0.0, -1.0, 1.0) == (NaN, PosInf)
    ensures SlabSpan(-5.0, 1.0, -1.0, 1.0) == (Fin(4.0), Fin(6.0))
    ensures SlabSpan(0.0, 0.0, -1.0, 1.0) == (NegInf, PosInf)
  {
    assert Recip(1.0) == Fin(1.0);
  }
}
