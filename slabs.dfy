/**
 * The crossing length of a ray through a semi-infinite slab bounded by the
 * planes x = xStart and x = xEnd: the case analysis on the two plane-hit
 * parameters, as written and with its boundary comparisons corrected.
 */
module Slabs {
  import opened Wrappers
  import opened RealMath
  import opened Vectors
  import opened Rays
  import opened Geometry

  const XNormal := Vec3(1.0, 0.0, 0.0)

  /** The parameter at which the ray meets the plane x = `x`, None when it runs parallel to it. */
  function FaceParameter(ray: RayState, x: real): (r: Option<real>)
    ensures r.None? <==> Abs(ray.dir.x) < ParallelTolerance
    ensures r.Some? ==> r.value == (x - ray.origin.x) / ray.dir.x
  {
    var r := LinePlaneCollision(XNormal, Vec3(x, 0.0, 0.0), ray.origin, ray.dir);
    assert Dot(XNormal, ray.dir) == ray.dir.x;
    assert r.Some? ==> Dot(Sub(Vec3(x, 0.0, 0.0), ray.origin), XNormal) == x - ray.origin.x;
    r
  }

  /** The case analysis on the two face parameters exactly as written. */
  function CasesAsWritten(first: real, second: real, length: real): real
  {
    if first < 0.0 && second < 0.0 then 0.0
    else if first > length && second > length then 0.0
    else
      var t0 := Min(first, second);
      var t1 := Max(first, second);
      if t0 < 0.0 && t1 > length then length
      else if t0 < 0.0 && t1 < length then t1
      else if t0 > 0.0 && t1 > length then length - t0
      else t1 - t0
  }

  /**
   * The case analysis with the boundary comparisons corrected: a face hit
   * exactly at the start (t0 == 0) or exactly at the end (t1 == length)
   * is treated like a hit beyond it.  The result is the overlap of the
   * slab's parameter interval with the ray, never more than the ray's length.
   */
  function Cases(first: real, second: real, length: real): (r: real)
    ensures 0.0 <= length ==> r == Overlap(Min(first, second), Max(first, second), length)
    ensures 0.0 <= length ==> 0.0 <= r <= length
  {
    if first < 0.0 && second < 0.0 then 0.0
    else if first > length && second > length then 0.0
    else
      var t0 := Min(first, second);
      var t1 := Max(first, second);
      if t0 <= 0.0 && t1 >= length then length
      else if t0 <= 0.0 then t1
      else if t1 >= length then length - t0
      else t1 - t0
  }

  /**
   * The written comparisons agree with the corrected ones except when the
   * nearer face is hit exactly at the start with the farther one beyond the
   * end, or the farther face exactly at the end with the nearer one before
   * the start; in those two cases the written code overshoots the ray.
   */
  lemma CasesAsWrittenOffBoundary(first: real, second: real, length: real)
    requires 0.0 <= length
    ensures var t0, t1 := Min(first, second), Max(first, second);
      (!(t0 == 0.0 && t1 > length) && !(t0 < 0.0 && t1 == length)
       <==> CasesAsWritten(first, second, length) == Cases(first, second, length))
  {
  }

  /** `SemiInfiniteXSlab._get_crossing_length` exactly as written. */
  function SlabCrossingAsWritten(ray: RayState, xStart: real, xEnd: real): (r: real)
    ensures Abs(ray.dir.x) < ParallelTolerance ==> r == 0.0
    ensures Abs(ray.dir.x) >= ParallelTolerance ==>
      r == CasesAsWritten(FaceParameter(ray, xStart).value, FaceParameter(ray, xEnd).value, ray.length)
  {
    var first := FaceParameter(ray, xStart);
    if first.None? then 0.0
    else
      var second := FaceParameter(ray, xEnd);
      if second.None? then 0.0
      else CasesAsWritten(first.value, second.value, ray.length)
  }

  /**
   * The slab crossing with the corrected comparisons: zero for a ray
   * parallel to the faces, otherwise the overlap of the ray with the
   * parameter interval between the two faces.
   */
  function SlabCrossing(ray: RayState, xStart: real, xEnd: real): (r: real)
    ensures Abs(ray.dir.x) < ParallelTolerance ==> r == 0.0
    ensures Abs(ray.dir.x) >= ParallelTolerance ==>
      var f, s := FaceParameter(ray, xStart).value, FaceParameter(ray, xEnd).value;
      0.0 <= ray.length ==> r == Overlap(Min(f, s), Max(f, s), ray.length)
    ensures 0.0 <= ray.length ==> 0.0 <= r <= ray.length
  {
    var first := FaceParameter(ray, xStart);
    if first.None? then 0.0
    else
      var second := FaceParameter(ray, xEnd);
      if second.None? then 0.0
      else Cases(first.value, second.value, ray.length)
  }

  /** Seen from the end of the ray, a plane hit at parameter t lies at length - t. */
  lemma MirroredParameter(o: real, d: real, l: real, x: real)
    requires d != 0.0
    ensures (x - (o + d * l)) / -d == l - (x - o) / d
  {
    var t := (x - o) / d;
    assert t * d == x - o;
    assert (l - t) * -d == x - (o + d * l);
  }

  /** Reversing the ray measures the same length through the slab. */
  lemma SlabCrossingReversed(m: Math, start: Vec3, end: Vec3, xStart: real, xEnd: real)
    requires m.SqrtExact()
    ensures SlabCrossing(RayOf(m, end, start), xStart, xEnd) == SlabCrossing(RayOf(m, start, end), xStart, xEnd)
  {
    ReversedRay(m, start, end);
    RayOfRegular(m, start, end);
    RayOfRegular(m, end, start);
    SlabCrossingMirrored(RayOf(m, start, end), RayOf(m, end, start), xStart, xEnd);
  }

  /** A ray walked back from the end of a regular ray, along the opposite direction, measures the same length. */
  lemma SlabCrossingMirrored(r: RayState, q: RayState, xStart: real, xEnd: real)
    requires Regular(r) && q.origin == r.end && q.dir == Neg(r.dir) && q.length == r.length
    ensures SlabCrossing(q, xStart, xEnd) == SlabCrossing(r, xStart, xEnd)
  {
    MirroredOrigin(r, q);
    if Abs(r.dir.x) >= ParallelTolerance {
      FaceMirrored(r, q, xStart);
      FaceMirrored(r, q, xEnd);
      CasesMirror(FaceParameter(r, xStart).value, FaceParameter(r, xEnd).value, r.length);
    }
  }

  /** The reversed ray starts where the regular one ends, on the opposite direction. */
  lemma MirroredOrigin(r: RayState, q: RayState)
    requires Regular(r) && q.origin == r.end && q.dir == Neg(r.dir)
    ensures q.origin.x == r.origin.x + r.dir.x * r.length && q.dir.x == -r.dir.x
    ensures Abs(q.dir.x) == Abs(r.dir.x)
  {
    assert PointAt(r, r.length) == r.end;
  }

  /** A face met at parameter t by the ray is met at length - t by the reversed ray. */
  lemma FaceMirrored(r: RayState, q: RayState, x: real)
    requires Abs(r.dir.x) >= ParallelTolerance && q.dir.x == -r.dir.x && q.length == r.length
    requires q.origin.x == r.origin.x + r.dir.x * r.length
    ensures FaceParameter(r, x).Some? && FaceParameter(q, x).Some?
    ensures FaceParameter(q, x).value == r.length - FaceParameter(r, x).value
  {
    MirroredParameter(r.origin.x, r.dir.x, r.length, x);
  }

  /** Face parameters measured from the other end of the ray give the same case analysis. */
  lemma CasesMirror(f: real, s: real, l: real)
    requires 0.0 <= l
    ensures Cases(l - f, l - s, l) == Cases(f, s, l)
  {
    OverlapMirror(Min(f, s), Max(f, s), l);
    assert Min(l - f, l - s) == l - Max(f, s) && Max(l - f, l - s) == l - Min(f, s);
  }

  /**
   * A ray from x = 15 to x = 20 through the slab between x = 10 and x = 20:
   * the far face is hit exactly at the ray's end, the near face before its
   * start, and the written code returns 10 for a ray 5 long.
   */
  lemma AsWrittenOverrunsRay(m: Math)
    requires m.SqrtOfSquares()
    ensures var ray := RayOf(m, Vec3(15.0, 0.0, 0.0), Vec3(20.0, 0.0, 0.0));
      ray.length == 5.0 &&
      SlabCrossingAsWritten(ray, 10.0, 20.0) == 10.0 &&
      SlabCrossing(ray, 10.0, 20.0) == 5.0
  {
    XRay(m, 15.0, 20.0, 0.0, 0.0);
    OverrunOnAxis(RayOf(m, Vec3(15.0, 0.0, 0.0), Vec3(20.0, 0.0, 0.0)));
  }

  lemma OverrunOnAxis(ray: RayState)
    requires ray.origin.x == 15.0 && ray.length == 5.0 && ray.dir == Vec3(1.0, 0.0, 0.0)
    ensures SlabCrossingAsWritten(ray, 10.0, 20.0) == 10.0
    ensures SlabCrossing(ray, 10.0, 20.0) == 5.0
  {
    FacesOnAxis(ray, 10.0, 20.0, -5.0, 5.0);
    assert CasesAsWritten(-5.0, 5.0, 5.0) == 10.0 && Cases(-5.0, 5.0, 5.0) == 5.0;
  }

  lemma FacesOnAxis(ray: RayState, x0: real, x1: real, f: real, s: real)
    requires Abs(ray.dir.x) >= ParallelTolerance
    requires f == (x0 - ray.origin.x) / ray.dir.x && s == (x1 - ray.origin.x) / ray.dir.x
    ensures SlabCrossingAsWritten(ray, x0, x1) == CasesAsWritten(f, s, ray.length)
    ensures SlabCrossing(ray, x0, x1) == Cases(f, s, ray.length)
  {
  }

  /** A ray along the x axis from 0 to 100 crosses the 10 cm of the slab from 10 to 20. */
  lemma SlabAlongAxis(m: Math)
    requires m.SqrtOfSquares()
    ensures SlabCrossing(RayOf(m, Vec3(0.0, 0.0, 0.0), Vec3(100.0, 0.0, 0.0)), 10.0, 20.0) == 10.0
    ensures SlabCrossingAsWritten(RayOf(m, Vec3(0.0, 0.0, 0.0), Vec3(100.0, 0.0, 0.0)), 10.0, 20.0) == 10.0
  {
    XRay(m, 0.0, 100.0, 0.0, 0.0);
    ThroughOnAxis(RayOf(m, Vec3(0.0, 0.0, 0.0), Vec3(100.0, 0.0, 0.0)), 0.0, 1.0);
  }

  /** So does the same ray walked from 100 back to 0. */
  lemma SlabAlongAxisReversed(m: Math)
    requires m.SqrtOfSquares()
    ensures SlabCrossing(RayOf(m, Vec3(100.0, 0.0, 0.0), Vec3(0.0, 0.0, 0.0)), 10.0, 20.0) == 10.0
    ensures SlabCrossingAsWritten(RayOf(m, Vec3(100.0, 0.0, 0.0), Vec3(0.0, 0.0, 0.0)), 10.0, 20.0) == 10.0
  {
    XRay(m, 100.0, 0.0, 0.0, 0.0);
    ThroughOnAxis(RayOf(m, Vec3(100.0, 0.0, 0.0), Vec3(0.0, 0.0, 0.0)), 100.0, -1.0);
  }

  lemma ThroughOnAxis(ray: RayState, o: real, e: real)
    requires e == 1.0 || e == -1.0
    requires ray.origin.x == o && ray.length == 100.0 && ray.dir == Vec3(e, 0.0, 0.0)
    requires (o == 0.0 && e == 1.0) || (o == 100.0 && e == -1.0)
    ensures SlabCrossingAsWritten(ray, 10.0, 20.0) == 10.0
    ensures SlabCrossing(ray, 10.0, 20.0) == 10.0
  {
    var f, s := (10.0 - o) / e, (20.0 - o) / e;
    assert (f == 10.0 && s == 20.0) || (f == 90.0 && s == 80.0);
    FacesOnAxis(ray, 10.0, 20.0, f, s);
    assert CasesAsWritten(f, s, 100.0) == 10.0 && Cases(f, s, 100.0) == 10.0;
  }
}
