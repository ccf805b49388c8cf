/**
 * `Box._intersect_axis_aligned_box`, the slab method for an axis-aligned
 * box in IEEE arithmetic, and `Box._get_crossing_length`.
 */
module Boxes {
  import opened Wrappers
  import opened RealMath
  import opened Vectors
  import opened ExtReals
  import opened Rays
  import opened Geometry
  import opened Crossings

  /** The `sign` a ray derives from its inverse direction: three entries, each 0 or 1. */
  predicate WellSigned(ray: RayState)
  {
    |ray.sign| == 3 && forall i :: 0 <= i < 3 ==> ray.sign[i] == 0 || ray.sign[i] == 1
  }

  /** `bounds[side][axis]`: side 0 is the corner with the smallest coordinates, side 1 the largest. */
  function Bound(b: Box, side: int, axis: nat): real
    requires axis < 3
  {
    if side == 0 then At(b.Low(), axis) else At(b.High(), axis)
  }

  /** `(bounds[side][axis] - origin[axis]) * invdir[axis]`. */
  function SlabParameter(ray: RayState, b: Box, side: int, axis: nat): ExtReal
    requires axis < 3
  {
    var inv := if axis == 0 then ray.invdir.x else if axis == 1 then ray.invdir.y else ray.invdir.z;
    Times(Bound(b, side, axis) - At(ray.origin, axis), inv)
  }

  /** The entry and exit parameters along one axis, ordered by the ray's sign on that axis. */
  function AxisInterval(ray: RayState, b: Box, axis: nat): (ExtReal, ExtReal)
    requires WellSigned(ray) && axis < 3
  {
    (SlabParameter(ray, b, ray.sign[axis], axis), SlabParameter(ray, b, 1 - ray.sign[axis], axis))
  }

  /**
   * The clipped parameter interval: None when the x and y intervals, or the
   * clipped one and the z interval, are disjoint under IEEE comparisons.
   */
  function BoxParameters(ray: RayState, b: Box): Option<(ExtReal, ExtReal)>
    requires WellSigned(ray)
  {
    var (tmin, tmax) := AxisInterval(ray, b, 0);
    var (tymin, tymax) := AxisInterval(ray, b, 1);
    if Less(tymax, tmin) || Less(tmax, tymin) then None
    else
      var tmin1 := if Less(tmin, tymin) then tymin else tmin;
      var tmax1 := if Less(tymax, tmax) then tymax else tmax;
      var (tzmin, tzmax) := AxisInterval(ray, b, 2);
      if Less(tzmax, tmin1) || Less(tmax1, tzmin) then None
      else
        var tmin2 := if Less(tmin1, tzmin) then tzmin else tmin1;
        var tmax2 := if Less(tzmax, tmax1) then tzmax else tmax1;
        Some((tmin2, tmax2))
  }

  /** The points of the ray at the entry and the exit parameters, each kept when it lies on the ray. */
  function BoxIntersect(ray: RayState, b: Box): (r: seq<Vec3>)
    requires WellSigned(ray)
    ensures |r| <= 2
    ensures AllOnSegment(ray, r)
  {
    match BoxParameters(ray, b)
    case None => []
    case Some((tmin, tmax)) =>
      var first := if Within(tmin, ray.length) then [PointAt(ray, tmin.r)] else [];
      var second := if Within(tmax, ray.length) then [PointAt(ray, tmax.r)] else [];
      assert AllOnSegment(ray, first) && AllOnSegment(ray, second);
      first + second
  }

  /** `Box._get_crossing_length` exactly as written. */
  function BoxCrossingAsWritten(m: Math, ray: RayState, b: Box): Result<real>
    requires WellSigned(ray)
  {
    DistanceAsWritten(m, WithEndpointsAsWritten(BoxIntersect(ray, b), ray, BoxContains(b, ray.origin), BoxContains(b, ray.end)))
  }

  /** `Box._get_crossing_length` with the endpoint bookkeeping corrected. */
  function BoxCrossing(m: Math, ray: RayState, b: Box): Result<real>
    requires WellSigned(ray)
  {
    Distance(m, WithEndpoints(BoxIntersect(ray, b), ray, BoxContains(b, ray.origin), BoxContains(b, ray.end)))
  }

  /** Either way, the length a regular ray crosses inside the box lies in [0, length]. */
  lemma BoxCrossingBounded(m: Math, ray: RayState, b: Box)
    requires m.SqrtOfSquares() && Regular(ray) && WellSigned(ray)
    ensures BoxCrossingAsWritten(m, ray, b).Ok? ==> 0.0 <= BoxCrossingAsWritten(m, ray, b).value <= ray.length
    ensures BoxCrossing(m, ray, b).Ok? ==> 0.0 <= BoxCrossing(m, ray, b).value <= ray.length
  {
    var points := BoxIntersect(ray, b);
    var oi, ei := BoxContains(b, ray.origin), BoxContains(b, ray.end);
    WithEndpointsOnSegment(ray, points, oi, ei);
    DistanceBounded(m, ray, WithEndpointsAsWritten(points, ray, oi, ei));
    DistanceBounded(m, ray, WithEndpoints(points, ray, oi, ei));
  }

  /** With finite entry and exit parameters, the intersection keeps the points of those on the ray. */
  lemma IntersectFinite(ray: RayState, b: Box, lo: real, hi: real)
    requires WellSigned(ray) && BoxParameters(ray, b) == Some((Fin(lo), Fin(hi)))
    ensures BoxIntersect(ray, b) == HitPoints(ray, lo, hi)
  {
  }

  /**
   * Along the x axis, with y and z strictly between the box's faces, the
   * y and z slabs are the whole line and the x slab gives the parameters
   * of the two x faces, nearer first.
   */
  lemma ParametersOnXAxis(ray: RayState, b: Box, a: real, e: real, y: real, z: real)
    requires OnXAxis(ray, a, e, y, z)
    requires b.Low().y < y < b.High().y && b.Low().z < z < b.High().z
    requires b.Low().x < b.High().x
    ensures WellSigned(ray)
    ensures BoxParameters(ray, b) ==
      if e == 1.0 then Some((Fin(b.Low().x - a), Fin(b.High().x - a)))
      else Some((Fin(a - b.High().x), Fin(a - b.Low().x)))
  {
    if e == 1.0 {
      assert (b.Low().x - a) * 1.0 == b.Low().x - a && (b.High().x - a) * 1.0 == b.High().x - a;
      assert AxisInterval(ray, b, 0) == (Fin(b.Low().x - a), Fin(b.High().x - a));
    } else {
      assert (b.High().x - a) * -1.0 == a - b.High().x && (b.Low().x - a) * -1.0 == a - b.Low().x;
      assert AxisInterval(ray, b, 0) == (Fin(a - b.High().x), Fin(a - b.Low().x));
    }
    assert AxisInterval(ray, b, 1) == (NegInf, PosInf);
    assert AxisInterval(ray, b, 2) == (NegInf, PosInf);
  }

  /** The parameter at which a ray along the x axis enters the box. */
  function XEntry(b: Box, a: real, e: real): real
  {
    if e == 1.0 then b.Low().x - a else a - b.High().x
  }

  /** The parameter at which a ray along the x axis leaves the box. */
  function XExit(b: Box, a: real, e: real): real
  {
    if e == 1.0 then b.High().x - a else a - b.Low().x
  }

  /** Along the x axis the box test finds the two x faces, and an end is inside exactly when its parameter lies between them. */
  lemma FacesOnXAxis(ray: RayState, b: Box, a: real, e: real, y: real, z: real)
    requires OnXAxis(ray, a, e, y, z)
    requires ray.end == Vec3(if e == 1.0 then a + ray.length else a - ray.length, y, z)
    requires b.Low().y < y < b.High().y && b.Low().z < z < b.High().z
    requires b.Low().x < b.High().x
    ensures WellSigned(ray)
    ensures XEntry(b, a, e) < XExit(b, a, e)
    ensures BoxIntersect(ray, b) == HitPoints(ray, XEntry(b, a, e), XExit(b, a, e))
    ensures BoxContains(b, ray.origin) <==> XEntry(b, a, e) <= 0.0 <= XExit(b, a, e)
    ensures BoxContains(b, ray.end) <==> XEntry(b, a, e) <= ray.length <= XExit(b, a, e)
  {
    ParametersOnXAxis(ray, b, a, e, y, z);
    IntersectFinite(ray, b, XEntry(b, a, e), XExit(b, a, e));
  }

  /** The end of a regular ray along the x axis lies `length` from its start. */
  lemma EndOnXAxis(ray: RayState, a: real, e: real, y: real, z: real)
    requires PointAt(ray, ray.length) == ray.end && OnXAxis(ray, a, e, y, z)
    ensures ray.end == Vec3(if e == 1.0 then a + ray.length else a - ray.length, y, z)
  {
    if e == 1.0 {
      EndForward(ray);
    } else {
      EndBackward(ray);
    }
  }

  lemma EndForward(ray: RayState)
    requires PointAt(ray, ray.length) == ray.end && ray.dir == Vec3(1.0, 0.0, 0.0)
    ensures ray.end == Add(ray.origin, Vec3(ray.length, 0.0, 0.0))
  {
  }

  lemma EndBackward(ray: RayState)
    requires PointAt(ray, ray.length) == ray.end && ray.dir == Vec3(-1.0, 0.0, 0.0)
    ensures ray.end == Add(ray.origin, Vec3(-ray.length, 0.0, 0.0))
  {
  }

  lemma AlongXRegular(a: real, c: real, y: real, z: real)
    requires a < c
    ensures var ray := AlongX(a, c, y, z);
      Regular(ray) && WellSigned(ray) && 0.0 < ray.length && ray.length == c - a && OnXAxis(ray, a, 1.0, y, z)
  {
  }

  lemma ForwardResult(m: Math, ray: RayState, b: Box, a: real, y: real, z: real, l: real, crossing: Result<real>, written: Result<real>)
    requires m.SqrtOfSquares() && Regular(ray) && WellSigned(ray) && 0.0 < ray.length && OnXAxis(ray, a, 1.0, y, z)
    requires b.Low().y < y < b.High().y && b.Low().z < z < b.High().z
    requires b.Low().x < b.High().x
    requires l == ray.length && crossing == Ok(Overlap(b.Low().x - a, b.High().x - a, l))
    requires written == if RootAtEndpoint(b.Low().x - a, b.High().x - a, l) then Err(ValueError(TwoCrossings)) else Ok(Overlap(b.Low().x - a, b.High().x - a, l))
    ensures BoxCrossing(m, ray, b) == crossing && BoxCrossingAsWritten(m, ray, b) == written
  {
    ForwardCrossing(m, ray, b, a, y, z);
  }

  /** On any regular ray along +x from x = a, the crossing is the overlap of the box's x extent with the ray. */
  lemma ForwardCrossing(m: Math, ray: RayState, b: Box, a: real, y: real, z: real)
    requires m.SqrtOfSquares() && Regular(ray) && WellSigned(ray) && 0.0 < ray.length && OnXAxis(ray, a, 1.0, y, z)
    requires b.Low().y < y < b.High().y && b.Low().z < z < b.High().z
    requires b.Low().x < b.High().x
    ensures BoxCrossing(m, ray, b) == Ok(Overlap(b.Low().x - a, b.High().x - a, ray.length))
    ensures BoxCrossingAsWritten(m, ray, b) ==
      if RootAtEndpoint(b.Low().x - a, b.High().x - a, ray.length) then Err(ValueError(TwoCrossings))
      else Ok(Overlap(b.Low().x - a, b.High().x - a, ray.length))
  {
    ExactDistances(m, ray);
    FacesAlongX(ray, b, a, y, z);
    CrossingFromFaces(m, ray, b, b.Low().x - a, b.High().x - a);
  }

  lemma FacesAlongX(ray: RayState, b: Box, a: real, y: real, z: real)
    requires PointAt(ray, ray.length) == ray.end && OnXAxis(ray, a, 1.0, y, z)
    requires b.Low().y < y < b.High().y && b.Low().z < z < b.High().z
    requires b.Low().x < b.High().x
    ensures WellSigned(ray) && b.Low().x - a < b.High().x - a
    ensures BoxIntersect(ray, b) == HitPoints(ray, b.Low().x - a, b.High().x - a)
    ensures BoxContains(b, ray.origin) == (b.Low().x - a <= 0.0 <= b.High().x - a)
    ensures BoxContains(b, ray.end) == (b.Low().x - a <= ray.length <= b.High().x - a)
  {
    EndOnXAxis(ray, a, 1.0, y, z);
    FacesOnXAxis(ray, b, a, 1.0, y, z);
  }

  /** The same along -x, where the face x = high is met first. */
  lemma CrossingAlongMinusX(m: Math, a: real, c: real, y: real, z: real, b: Box)
    requires m.SqrtOfSquares() && c < a
    requires b.Low().y < y < b.High().y && b.Low().z < z < b.High().z
    requires b.Low().x < b.High().x
    ensures var ray := AgainstX(a, c, y, z);
      WellSigned(ray) &&
      BoxCrossing(m, ray, b) == Ok(Overlap(a - b.High().x, a - b.Low().x, a - c)) &&
      BoxCrossingAsWritten(m, ray, b) ==
        if RootAtEndpoint(a - b.High().x, a - b.Low().x, a - c) then Err(ValueError(TwoCrossings)) else Ok(Overlap(a - b.High().x, a - b.Low().x, a - c))
  {
    AgainstXRegular(a, c, y, z);
    BackwardResult(m, AgainstX(a, c, y, z), b, a, y, z, a - c, Ok(Overlap(a - b.High().x, a - b.Low().x, a - c)),
      if RootAtEndpoint(a - b.High().x, a - b.Low().x, a - c) then Err(ValueError(TwoCrossings)) else Ok(Overlap(a - b.High().x, a - b.Low().x, a - c)));
  }

  lemma AgainstXRegular(a: real, c: real, y: real, z: real)
    requires c < a
    ensures var ray := AgainstX(a, c, y, z);
      Regular(ray) && WellSigned(ray) && 0.0 < ray.length && ray.length == a - c && OnXAxis(ray, a, -1.0, y, z)
  {
  }

  lemma BackwardResult(m: Math, ray: RayState, b: Box, a: real, y: real, z: real, l: real, crossing: Result<real>, written: Result<real>)
    requires m.SqrtOfSquares() && Regular(ray) && WellSigned(ray) && 0.0 < ray.length && OnXAxis(ray, a, -1.0, y, z)
    requires b.Low().y < y < b.High().y && b.Low().z < z < b.High().z
    requires b.Low().x < b.High().x
    requires l == ray.length && crossing == Ok(Overlap(a - b.High().x, a - b.Low().x, l))
    requires written == if RootAtEndpoint(a - b.High().x, a - b.Low().x, l) then Err(ValueError(TwoCrossings)) else Ok(Overlap(a - b.High().x, a - b.Low().x, l))
    ensures BoxCrossing(m, ray, b) == crossing && BoxCrossingAsWritten(m, ray, b) == written
  {
    BackwardCrossing(m, ray, b, a, y, z);
  }

  /** On any regular ray along -x from x = a, the crossing is the overlap of the box's x extent with the ray. */
  lemma BackwardCrossing(m: Math, ray: RayState, b: Box, a: real, y: real, z: real)
    requires m.SqrtOfSquares() && Regular(ray) && WellSigned(ray) && 0.0 < ray.length && OnXAxis(ray, a, -1.0, y, z)
    requires b.Low().y < y < b.High().y && b.Low().z < z < b.High().z
    requires b.Low().x < b.High().x
    ensures BoxCrossing(m, ray, b) == Ok(Overlap(a - b.High().x, a - b.Low().x, ray.length))
    ensures BoxCrossingAsWritten(m, ray, b) ==
      if RootAtEndpoint(a - b.High().x, a - b.Low().x, ray.length) then Err(ValueError(TwoCrossings))
      else Ok(Overlap(a - b.High().x, a - b.Low().x, ray.length))
  {
    ExactDistances(m, ray);
    FacesAlongMinusX(ray, b, a, y, z);
    CrossingFromFaces(m, ray, b, a - b.High().x, a - b.Low().x);
  }

  lemma FacesAlongMinusX(ray: RayState, b: Box, a: real, y: real, z: real)
    requires PointAt(ray, ray.length) == ray.end && OnXAxis(ray, a, -1.0, y, z)
    requires b.Low().y < y < b.High().y && b.Low().z < z < b.High().z
    requires b.Low().x < b.High().x
    ensures WellSigned(ray) && a - b.High().x < a - b.Low().x
    ensures BoxIntersect(ray, b) == HitPoints(ray, a - b.High().x, a - b.Low().x)
    ensures BoxContains(b, ray.origin) == (a - b.High().x <= 0.0 <= a - b.Low().x)
    ensures BoxContains(b, ray.end) == (a - b.High().x <= ray.length <= a - b.Low().x)
  {
    EndOnXAxis(ray, a, -1.0, y, z);
    FacesOnXAxis(ray, b, a, -1.0, y, z);
  }

  /**
   * When the box test finds the entry and exit parameters `lo` < `hi` and
   * the ends of the ray are inside exactly when their parameters lie
   * between them, the crossing is the overlap of [lo, hi] with the ray.
   */
  lemma CrossingFromFaces(m: Math, ray: RayState, b: Box, lo: real, hi: real)
    requires DistancesExact(m, ray) && Regular(ray) && 0.0 < ray.length && WellSigned(ray) && lo < hi
    requires BoxIntersect(ray, b) == HitPoints(ray, lo, hi)
    requires BoxContains(b, ray.origin) == (lo <= 0.0 <= hi)
    requires BoxContains(b, ray.end) == (lo <= ray.length <= hi)
    ensures BoxCrossing(m, ray, b) == Ok(Overlap(lo, hi, ray.length))
    ensures BoxCrossingAsWritten(m, ray, b) ==
      if RootAtEndpoint(lo, hi, ray.length) then Err(ValueError(TwoCrossings)) else Ok(Overlap(lo, hi, ray.length))
  {
    Bookkeeping(m, ray, lo, hi);
  }

  /** The box centered at (1, 0, 0) with edges of 10 cm. */
  const TestBox := Box(Vec3(1.0, 0.0, 0.0), Vec3(10.0, 10.0, 10.0))

  lemma TestBoxCorners()
    ensures TestBox.Low() == Vec3(-4.0, -5.0, -5.0) && TestBox.High() == Vec3(6.0, 5.0, 5.0)
  {
  }

  /** The overlaps of the test box's x extent with the rays of the box tests. */
  lemma TestBoxOverlaps()
    ensures Overlap(TestBox.Low().x - -10.0, TestBox.High().x - -10.0, 20.0 - -10.0) == 10.0
    ensures Overlap(20.0 - TestBox.High().x, 20.0 - TestBox.Low().x, 20.0 - -10.0) == 10.0
    ensures Overlap(TestBox.Low().x - 3.0, TestBox.High().x - 3.0, 21.0 - 3.0) == 3.0
    ensures Overlap(3.0 - TestBox.High().x, 3.0 - TestBox.Low().x, 3.0 - -19.0) == 7.0
    ensures Overlap(21.0 - TestBox.High().x, 21.0 - TestBox.Low().x, 21.0 - 3.0) == 3.0
    ensures Overlap(2.0 - TestBox.High().x, 2.0 - TestBox.Low().x, 2.0 - -3.0) == 5.0
  {
    TestBoxCorners();
  }

  /** A ray through the test box along x crosses its full 10 cm. */
  lemma TestBoxThrough(m: Math)
    requires m.SqrtOfSquares()
    ensures BoxCrossing(m, RayOf(m, Vec3(-10.0, 3.0, 3.0), Vec3(20.0, 3.0, 3.0)), TestBox) == Ok(10.0)
  {
    RayOfAlongX(m, -10.0, 20.0, 3.0, 3.0);
    AlongXRegular(-10.0, 20.0, 3.0, 3.0);
    TestBoxCorners();
    TestBoxOverlaps();
    ForwardCrossing(m, AlongX(-10.0, 20.0, 3.0, 3.0), TestBox, -10.0, 3.0, 3.0);
  }

  /** So does the same ray reversed. */
  lemma TestBoxThroughReversed(m: Math)
    requires m.SqrtOfSquares()
    ensures BoxCrossing(m, RayOf(m, Vec3(20.0, 3.0, 3.0), Vec3(-10.0, 3.0, 3.0)), TestBox) == Ok(10.0)
  {
    RayOfAgainstX(m, 20.0, -10.0, 3.0, 3.0);
    TestBoxCorners();
    TestBoxOverlaps();
    CrossingAlongMinusX(m, 20.0, -10.0, 3.0, 3.0, TestBox);
  }

  /** A ray from inside the box outwards along +x crosses 3 cm. */
  lemma TestBoxOutwards(m: Math)
    requires m.SqrtOfSquares()
    ensures BoxCrossing(m, RayOf(m, Vec3(3.0, 3.0, 3.0), Vec3(21.0, 3.0, 3.0)), TestBox) == Ok(3.0)
  {
    RayOfAlongX(m, 3.0, 21.0, 3.0, 3.0);
    AlongXRegular(3.0, 21.0, 3.0, 3.0);
    TestBoxCorners();
    TestBoxOverlaps();
    ForwardCrossing(m, AlongX(3.0, 21.0, 3.0, 3.0), TestBox, 3.0, 3.0, 3.0);
  }

  /** A ray from the same point outwards along -x crosses 7 cm. */
  lemma TestBoxOutwardsReversed(m: Math)
    requires m.SqrtOfSquares()
    ensures BoxCrossing(m, RayOf(m, Vec3(3.0, 3.0, 3.0), Vec3(-19.0, 3.0, 3.0)), TestBox) == Ok(7.0)
  {
    RayOfAgainstX(m, 3.0, -19.0, 3.0, 3.0);
    TestBoxCorners();
    TestBoxOverlaps();
    CrossingAlongMinusX(m, 3.0, -19.0, 3.0, 3.0, TestBox);
  }

  /** A ray from outside ending inside the box crosses 3 cm. */
  lemma TestBoxInwards(m: Math)
    requires m.SqrtOfSquares()
    ensures BoxCrossing(m, RayOf(m, Vec3(21.0, 3.0, 3.0), Vec3(3.0, 3.0, 3.0)), TestBox) == Ok(3.0)
  {
    RayOfAgainstX(m, 21.0, 3.0, 3.0, 3.0);
    TestBoxCorners();
    TestBoxOverlaps();
    CrossingAlongMinusX(m, 21.0, 3.0, 3.0, 3.0, TestBox);
  }

  /** A ray wholly inside the box crosses its whole 5 cm. */
  lemma TestBoxInside(m: Math)
    requires m.SqrtOfSquares()
    ensures BoxCrossing(m, RayOf(m, Vec3(2.0, 3.0, 3.0), Vec3(-3.0, 3.0, 3.0)), TestBox) == Ok(5.0)
  {
    RayOfAgainstX(m, 2.0, -3.0, 3.0, 3.0);
    TestBoxCorners();
    TestBoxOverlaps();
    CrossingAlongMinusX(m, 2.0, -3.0, 3.0, 3.0, TestBox);
  }

  /**
   * A ray from the face x = -4 of the test box inwards to x = 0: the entry
   * is at the ray's start, the exit beyond its end, and the written code
   * raises where the ray runs 4 cm inside the box.
   */
  lemma AsWrittenRaisesOnFace(m: Math)
    requires m.SqrtOfSquares()
    ensures var ray := RayOf(m, Vec3(-4.0, 3.0, 3.0), Vec3(0.0, 3.0, 3.0));
      WellSigned(ray) &&
      BoxCrossingAsWritten(m, ray, TestBox) == Err(ValueError(TwoCrossings)) &&
      BoxCrossing(m, ray, TestBox) == Ok(4.0)
  {
    RayOfAlongX(m, -4.0, 0.0, 3.0, 3.0);
    RaisesOnFace(m);
  }

  lemma RaisesOnFace(m: Math)
    requires m.SqrtOfSquares()
    ensures var ray := AlongX(-4.0, 0.0, 3.0, 3.0);
      WellSigned(ray) &&
      BoxCrossingAsWritten(m, ray, TestBox) == Err(ValueError(TwoCrossings)) &&
      BoxCrossing(m, ray, TestBox) == Ok(4.0)
  {
    FaceRoots();
    AlongXRegular(-4.0, 0.0, 3.0, 3.0);
    ForwardCrossing(m, AlongX(-4.0, 0.0, 3.0, 3.0), TestBox, -4.0, 3.0, 3.0);
  }

  lemma FaceRoots()
    ensures TestBox.Low().x - -4.0 == 0.0 && TestBox.High().x - -4.0 == 10.0 && 0.0 - -4.0 == 4.0
    ensures RootAtEndpoint(0.0, 10.0, 4.0) && Overlap(0.0, 10.0, 4.0) == 4.0
  {
    TestBoxCorners();
  }
}
