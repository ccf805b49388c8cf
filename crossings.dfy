/**
 * The crossing-point bookkeeping that the box and the capped cylinder
 * share: the intersection points found on the ray, completed with the
 * ray's endpoints that lie inside the shield, and the distance between
 * the two crossings.
 */
module Crossings {
  import opened Wrappers
  import opened RealMath
  import opened Vectors
  import opened Rays
  import opened Geometry

  const TwoCrossings := "Shield doesn't have 2 crossings"

  /** As written: when there are not two points, a contained start goes first and a contained end last. */
  function WithEndpointsAsWritten(points: seq<Vec3>, ray: RayState, originInside: bool, endInside: bool): seq<Vec3>
  {
    if |points| == 2 then points
    else (if originInside then [ray.origin] else []) + points + (if endInside then [ray.end] else [])
  }

  /** Corrected: a contained endpoint is added only when it is not already one of the points. */
  function WithEndpoints(points: seq<Vec3>, ray: RayState, originInside: bool, endInside: bool): seq<Vec3>
  {
    if |points| == 2 then points
    else
      var p := if originInside && ray.origin !in points then [ray.origin] + points else points;
      if endInside && ray.end !in p then p + [ray.end] else p
  }

  /** As written: no points is a miss, any count but two an error, two points the ends of the crossing. */
  function DistanceAsWritten(m: Math, points: seq<Vec3>): Result<real>
  {
    if |points| == 0 then Ok(0.0)
    else if |points| != 2 then Err(ValueError(TwoCrossings))
    else Ok(Norm(m, Sub(points[0], points[1])))
  }

  /** Corrected: fewer than two distinct points means a miss or a touch at one end, a crossing of length zero. */
  function Distance(m: Math, points: seq<Vec3>): Result<real>
  {
    if |points| < 2 then Ok(0.0)
    else if |points| != 2 then Err(ValueError(TwoCrossings))
    else Ok(Norm(m, Sub(points[0], points[1])))
  }

  /** `p` is a point of the ray between its start and its end. */
  ghost predicate OnSegment(ray: RayState, p: Vec3)
  {
    exists t :: 0.0 <= t <= ray.length && p == PointAt(ray, t)
  }

  /** Every point of the list lies on the ray between its ends. */
  ghost predicate AllOnSegment(ray: RayState, points: seq<Vec3>)
  {
    forall i :: 0 <= i < |points| ==> OnSegment(ray, points[i])
  }

  /** The ends of a regular ray lie on it. */
  lemma EndsOnSegment(ray: RayState)
    requires Regular(ray)
    ensures OnSegment(ray, ray.origin) && OnSegment(ray, ray.end)
  {
    OriginOnRay(ray);
  }

  /** Adding the endpoints, either way, keeps every point on the ray. */
  lemma WithEndpointsOnSegment(ray: RayState, points: seq<Vec3>, originInside: bool, endInside: bool)
    requires Regular(ray) && AllOnSegment(ray, points)
    ensures AllOnSegment(ray, WithEndpointsAsWritten(points, ray, originInside, endInside))
    ensures AllOnSegment(ray, WithEndpoints(points, ray, originInside, endInside))
  {
    EndsOnSegment(ray);
  }

  /** Two points on a regular ray are never further apart than the ray is long. */
  lemma SegmentDistance(m: Math, ray: RayState, p: Vec3, q: Vec3)
    requires m.SqrtOfSquares() && Regular(ray) && OnSegment(ray, p) && OnSegment(ray, q)
    ensures 0.0 <= Norm(m, Sub(p, q)) <= ray.length
  {
    var tp :| 0.0 <= tp <= ray.length && p == PointAt(ray, tp);
    var tq :| 0.0 <= tq <= ray.length && q == PointAt(ray, tq);
    DistanceAlongRay(m, ray, tp, tq);
  }

  /** Whatever the bookkeeping, a crossing measured between points on the ray lies in [0, length]. */
  lemma DistanceBounded(m: Math, ray: RayState, points: seq<Vec3>)
    requires m.SqrtOfSquares() && Regular(ray) && AllOnSegment(ray, points)
    ensures DistanceAsWritten(m, points).Ok? ==> 0.0 <= DistanceAsWritten(m, points).value <= ray.length
    ensures Distance(m, points).Ok? ==> 0.0 <= Distance(m, points).value <= ray.length
  {
    if |points| == 2 {
      SegmentDistance(m, ray, points[0], points[1]);
    }
  }

  /**
   * The points of the ray at the entry and the exit parameters of a convex
   * shield, each kept when it lies on the ray.
   */
  function HitPoints(ray: RayState, lo: real, hi: real): (r: seq<Vec3>)
    ensures |r| <= 2
  {
    (if 0.0 <= lo <= ray.length then [PointAt(ray, lo)] else [])
    + (if 0.0 <= hi <= ray.length then [PointAt(ray, hi)] else [])
  }

  /**
   * The distance between any two points of the segment is the difference
   * of their parameters: what an exact square root gives a regular ray.
   */
  ghost predicate DistancesExact(m: Math, ray: RayState)
  {
    forall t, s {:trigger Norm(m, Sub(PointAt(ray, t), PointAt(ray, s)))} ::
      0.0 <= t <= ray.length && 0.0 <= s <= ray.length ==>
      Norm(m, Sub(PointAt(ray, t), PointAt(ray, s))) == Abs(t - s)
  }

  lemma ExactDistances(m: Math, ray: RayState)
    requires m.SqrtOfSquares() && Regular(ray)
    ensures DistancesExact(m, ray)
  {
    forall t, s | 0.0 <= t <= ray.length && 0.0 <= s <= ray.length
      ensures Norm(m, Sub(PointAt(ray, t), PointAt(ray, s))) == Abs(t - s)
    {
      DistanceAlongRay(m, ray, t, s);
    }
  }

  /** On a ray of positive length, distinct parameters on the segment give distinct points. */
  lemma PointsDistinct(m: Math, ray: RayState, t: real, s: real)
    requires DistancesExact(m, ray) && Regular(ray) && 0.0 < ray.length
    requires 0.0 <= t <= ray.length && 0.0 <= s <= ray.length
    ensures PointAt(ray, t) == PointAt(ray, s) <==> t == s
  {
    assert Norm(m, Sub(PointAt(ray, t), PointAt(ray, s))) == Abs(t - s);
    if PointAt(ray, t) == PointAt(ray, s) {
      assert Norm(m, Sub(PointAt(ray, t), PointAt(ray, t))) == 0.0;
    }
  }

  /** The ends of a regular ray are its points at 0 and at its length. */
  lemma Ends(ray: RayState)
    requires Regular(ray)
    ensures ray.origin == PointAt(ray, 0.0) && ray.end == PointAt(ray, ray.length)
  {
    OriginOnRay(ray);
  }

  /** Both crossings on the ray: the bookkeeping leaves the two points alone. */
  lemma BothOnRay(m: Math, ray: RayState, lo: real, hi: real)
    requires DistancesExact(m, ray) && Regular(ray) && 0.0 < ray.length && lo < hi
    requires 0.0 <= lo && hi <= ray.length
    ensures var pts, oi, ei := HitPoints(ray, lo, hi), lo <= 0.0 <= hi, lo <= ray.length <= hi;
      Distance(m, WithEndpoints(pts, ray, oi, ei)) == Ok(hi - lo) &&
      DistanceAsWritten(m, WithEndpointsAsWritten(pts, ray, oi, ei)) == Ok(hi - lo)
  {
    assert Norm(m, Sub(PointAt(ray, lo), PointAt(ray, hi))) == Abs(lo - hi);
  }

  /** Only the entry on the ray: the exit is beyond the end, which is inside the shield. */
  lemma EntryOnRay(m: Math, ray: RayState, lo: real, hi: real)
    requires DistancesExact(m, ray) && Regular(ray) && 0.0 < ray.length && lo < hi
    requires 0.0 <= lo <= ray.length < hi
    ensures var pts, oi, ei := HitPoints(ray, lo, hi), lo <= 0.0 <= hi, lo <= ray.length <= hi;
      Distance(m, WithEndpoints(pts, ray, oi, ei)) == Ok(Overlap(lo, hi, ray.length)) &&
      DistanceAsWritten(m, WithEndpointsAsWritten(pts, ray, oi, ei)) ==
        if RootAtEndpoint(lo, hi, ray.length) then Err(ValueError(TwoCrossings)) else Ok(Overlap(lo, hi, ray.length))
  {
    var l := ray.length;
    Ends(ray);
    PointsDistinct(m, ray, lo, 0.0);
    PointsDistinct(m, ray, lo, l);
    assert Norm(m, Sub(PointAt(ray, lo), PointAt(ray, l))) == Abs(lo - l);
    assert HitPoints(ray, lo, hi) == [PointAt(ray, lo)];
  }

  /** Only the exit on the ray: the entry is before the start, which is inside the shield. */
  lemma ExitOnRay(m: Math, ray: RayState, lo: real, hi: real)
    requires DistancesExact(m, ray) && Regular(ray) && 0.0 < ray.length && lo < hi
    requires lo < 0.0 <= hi <= ray.length
    ensures var pts, oi, ei := HitPoints(ray, lo, hi), lo <= 0.0 <= hi, lo <= ray.length <= hi;
      Distance(m, WithEndpoints(pts, ray, oi, ei)) == Ok(Overlap(lo, hi, ray.length)) &&
      DistanceAsWritten(m, WithEndpointsAsWritten(pts, ray, oi, ei)) ==
        if RootAtEndpoint(lo, hi, ray.length) then Err(ValueError(TwoCrossings)) else Ok(Overlap(lo, hi, ray.length))
  {
    var l := ray.length;
    Ends(ray);
    PointsDistinct(m, ray, hi, 0.0);
    PointsDistinct(m, ray, hi, l);
    PointsDistinct(m, ray, 0.0, l);
    assert Norm(m, Sub(PointAt(ray, 0.0), PointAt(ray, hi))) == Abs(0.0 - hi);
    assert HitPoints(ray, lo, hi) == [PointAt(ray, hi)];
  }

  /** Neither crossing on the ray: the ray misses, or lies wholly inside. */
  lemma NeitherOnRay(m: Math, ray: RayState, lo: real, hi: real)
    requires DistancesExact(m, ray) && Regular(ray) && 0.0 < ray.length && lo < hi
    requires !(0.0 <= lo <= ray.length) && !(0.0 <= hi <= ray.length)
    ensures var pts, oi, ei := HitPoints(ray, lo, hi), lo <= 0.0 <= hi, lo <= ray.length <= hi;
      Distance(m, WithEndpoints(pts, ray, oi, ei)) == Ok(Overlap(lo, hi, ray.length)) &&
      DistanceAsWritten(m, WithEndpointsAsWritten(pts, ray, oi, ei)) == Ok(Overlap(lo, hi, ray.length))
  {
    var l := ray.length;
    Ends(ray);
    assert Norm(m, Sub(PointAt(ray, 0.0), PointAt(ray, l))) == Abs(0.0 - l);
    assert HitPoints(ray, lo, hi) == [];
  }

  /**
   * For a convex shield entered at parameter `lo` and left at `hi`, with
   * the ends of the ray inside exactly when their parameters lie between
   * the two: the corrected bookkeeping measures the overlap of [lo, hi]
   * with the ray, and the written one does too except in the two boundary
   * cases, where it raises.
   */
  lemma Bookkeeping(m: Math, ray: RayState, lo: real, hi: real)
    requires DistancesExact(m, ray) && Regular(ray) && 0.0 < ray.length && lo < hi
    ensures var pts, oi, ei := HitPoints(ray, lo, hi), lo <= 0.0 <= hi, lo <= ray.length <= hi;
      Distance(m, WithEndpoints(pts, ray, oi, ei)) == Ok(Overlap(lo, hi, ray.length)) &&
      DistanceAsWritten(m, WithEndpointsAsWritten(pts, ray, oi, ei)) ==
        if RootAtEndpoint(lo, hi, ray.length) then Err(ValueError(TwoCrossings)) else Ok(Overlap(lo, hi, ray.length))
  {
    var l := ray.length;
    if 0.0 <= lo <= l && 0.0 <= hi <= l {
      BothOnRay(m, ray, lo, hi);
    } else if 0.0 <= lo <= l {
      EntryOnRay(m, ray, lo, hi);
    } else if 0.0 <= hi <= l {
      ExitOnRay(m, ray, lo, hi);
    } else {
      NeitherOnRay(m, ray, lo, hi);
    }
  }
}
