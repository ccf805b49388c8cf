/**
 * `Shield._ray_sphere_intersection`, the chord a ray cuts through a sphere,
 * and the shell built from two concentric spheres.
 */
module Spheres {
  import opened Wrappers
  import opened RealMath
  import opened Vectors
  import opened Rays
  import opened Geometry
  import opened Quadratics

  /** The quadratic in the ray parameter whose zeros are where the ray's line meets the sphere's surface. */
  function SphereQuadratic(ray: RayState, s: Sphere): Quadratic
  {
    var w := Sub(ray.origin, s.center);
    Quadratic(Dot(ray.dir, ray.dir), 2.0 * Dot(ray.dir, w), Dot(w, w) - s.radius * s.radius)
  }

  /** The squared distance from the center, less the squared radius, is the quadratic at `t`. */
  lemma SphereQuadraticMeaning(ray: RayState, s: Sphere, t: real)
    ensures var v := Sub(PointAt(ray, t), s.center);
      Dot(v, v) - s.radius * s.radius == SphereQuadratic(ray, s).ValueAt(t)
  {
    var w := Sub(ray.origin, s.center);
    assert Sub(PointAt(ray, t), s.center) == Add(w, Scale(ray.dir, t));
    DotAlongLine(w, ray.dir, t);
  }

  /** The candidate parameters `[t0, t1]` of `_ray_sphere_intersection`, smaller root first. */
  function Candidates(m: Math, q: Quadratic): seq<real>
    requires 0.0 < q.a
  {
    [LowRoot(m, q), HighRoot(m, q)]
  }

  /** The parameters of `ts` that lie on the ray, [0, length], in their original order. */
  function OnRay(ts: seq<real>, length: real): (r: seq<real>)
    ensures |r| <= |ts|
    ensures forall i :: 0 <= i < |r| ==> 0.0 <= r[i] <= length
  {
    if |ts| == 0 then []
    else
      var last := ts[|ts| - 1];
      OnRay(ts[..|ts| - 1], length) + (if 0.0 <= last <= length then [last] else [])
  }

  /** The endpoint bookkeeping exactly as written: both contained endpoints are appended whenever there are not two hits. */
  function WithEndpointsAsWritten(hits: seq<real>, originInside: bool, endInside: bool, length: real): seq<real>
  {
    if |hits| == 2 then hits
    else hits + (if originInside then [0.0] else []) + (if endInside then [length] else [])
  }

  /** The corrected bookkeeping: a contained endpoint is appended only when it is not already one of the hits. */
  function WithEndpoints(hits: seq<real>, originInside: bool, endInside: bool, length: real): seq<real>
  {
    if |hits| == 2 then hits
    else
      var h := if originInside && 0.0 !in hits then hits + [0.0] else hits;
      if endInside && length !in h then h + [length] else h
  }

  const TwoCrossings := "Sphere doesn't have 2 crossings"

  /** As written: no hits is a miss, any count other than two an error, and two hits are the chord's ends. */
  function ChordOfAsWritten(hits: seq<real>): Result<real>
  {
    if |hits| == 0 then Ok(0.0)
    else if |hits| != 2 then Err(ValueError(TwoCrossings))
    else Ok(Abs(hits[1] - hits[0]))
  }

  /**
   * Corrected: fewer than two distinct crossings means the ray misses the
   * sphere or only touches it at one of its ends, a chord of length zero.
   */
  function ChordOf(hits: seq<real>): Result<real>
  {
    if |hits| < 2 then Ok(0.0)
    else if |hits| != 2 then Err(ValueError(TwoCrossings))
    else Ok(Abs(hits[1] - hits[0]))
  }

  /** `_ray_sphere_intersection` exactly as written. */
  function SphereChordAsWritten(m: Math, ray: RayState, s: Sphere): Result<real>
  {
    var q := SphereQuadratic(ray, s);
    if q.Discriminant() <= 0.0 then Ok(0.0)
    else
      ZeroLeading(ray.dir, Sub(ray.origin, s.center));
      ChordOfAsWritten(WithEndpointsAsWritten(OnRay(Candidates(m, q), ray.length),
        SphereContains(s, ray.origin), SphereContains(s, ray.end), ray.length))
  }

  /** `_ray_sphere_intersection` with the endpoint bookkeeping corrected. */
  function SphereChord(m: Math, ray: RayState, s: Sphere): Result<real>
  {
    var q := SphereQuadratic(ray, s);
    if q.Discriminant() <= 0.0 then Ok(0.0)
    else
      ZeroLeading(ray.dir, Sub(ray.origin, s.center));
      ChordOf(WithEndpoints(OnRay(Candidates(m, q), ray.length),
        SphereContains(s, ray.origin), SphereContains(s, ray.end), ray.length))
  }

  /** The loop over the candidate parameters that keeps those on the ray. */
  method HitsOnRay(candidates: seq<real>, length: real) returns (hits: seq<real>)
    ensures hits == OnRay(candidates, length)
  {
    hits := [];
    for i := 0 to |candidates|
      invariant hits == OnRay(candidates[..i], length)
    {
      assert candidates[..i + 1][..i] == candidates[..i];
      if 0.0 <= candidates[i] <= length {
        hits := hits + [candidates[i]];
      }
    }
    assert candidates[..|candidates|] == candidates;
  }

  /**
   * The corrected intersection: the quadratic's roots, the hits among them
   * on the ray, the contained endpoints not already hit, and the chord
   * between the two crossings.
   */
  method RaySphereIntersection(m: Math, ray: RayState, s: Sphere) returns (r: Result<real>)
    ensures r == SphereChord(m, ray, s)
  {
    var q := SphereQuadratic(ray, s);
    if q.Discriminant() <= 0.0 {
      return Ok(0.0);
    }
    ZeroLeading(ray.dir, Sub(ray.origin, s.center));
    assert 0.0 < q.a;
    var root := m.sqrt(q.Discriminant());
    var t0 := (-q.b - root) / (2.0 * q.a);
    var t1 := (-q.b + root) / (2.0 * q.a);
    assert [t0, t1] == Candidates(m, q);
    var bigList := HitsOnRay([t0, t1], ray.length);
    bigList := WithContainedEnds(bigList, SphereContains(s, ray.origin), SphereContains(s, ray.end), ray.length);
    assert SphereChord(m, ray, s) == ChordOf(bigList);
    if |bigList| < 2 {
      return Ok(0.0);
    }
    if |bigList| != 2 {
      return Err(ValueError(TwoCrossings));
    }
    return Ok(Abs(bigList[1] - bigList[0]));
  }

  /** The corrected endpoint bookkeeping, appending to the list of hits. */
  method WithContainedEnds(hits: seq<real>, originInside: bool, endInside: bool, length: real) returns (r: seq<real>)
    ensures r == WithEndpoints(hits, originInside, endInside, length)
  {
    r := hits;
    if |r| != 2 {
      if originInside && 0.0 !in r {
        r := r + [0.0];
      }
      if endInside && length !in r {
        r := r + [length];
      }
    }
  }

  /** With a positive discriminant, the points of the ray's line inside the sphere are those between the roots. */
  lemma SphereInterval(m: Math, ray: RayState, s: Sphere, t: real)
    requires m.SqrtExact()
    requires 0.0 < SphereQuadratic(ray, s).Discriminant()
    ensures 0.0 < SphereQuadratic(ray, s).a
    ensures SphereContains(s, PointAt(ray, t)) <==>
      LowRoot(m, SphereQuadratic(ray, s)) <= t <= HighRoot(m, SphereQuadratic(ray, s))
  {
    var q := SphereQuadratic(ray, s);
    ZeroLeading(ray.dir, Sub(ray.origin, s.center));
    SphereQuadraticMeaning(ray, s, t);
    SignBetweenRoots(m, q, t);
    var v := Sub(PointAt(ray, t), s.center);
    assert SphereContains(s, PointAt(ray, t)) <==> !(Dot(v, v) > s.radius * s.radius);
  }

  /** With a non-positive discriminant, no point of a moving ray's line is strictly inside the sphere. */
  lemma SphereMissed(ray: RayState, s: Sphere, t: real)
    requires SphereQuadratic(ray, s).Discriminant() <= 0.0
    requires 0.0 < SphereQuadratic(ray, s).a
    ensures var v := Sub(PointAt(ray, t), s.center);
      !(Dot(v, v) < s.radius * s.radius)
  {
    var q := SphereQuadratic(ray, s);
    SphereQuadraticMeaning(ray, s, t);
    NonNegativeOutsideRoots(q, t);
  }

  /** `4 a (a t^2 + b t + c) == (2 a t + b)^2 - disc`, so a quadratic with no two real roots keeps its sign. */
  lemma NonNegativeOutsideRoots(q: Quadratic, t: real)
    requires q.Discriminant() <= 0.0 && 0.0 < q.a
    ensures 0.0 <= q.ValueAt(t)
  {
    var y := 2.0 * q.a * t + q.b;
    assert 4.0 * q.a * q.ValueAt(t) == y * y - q.Discriminant();
    assert 0.0 <= y * y;
    if q.ValueAt(t) < 0.0 {
      PositiveProduct(4.0 * q.a, -q.ValueAt(t));
    }
  }

  /**
   * The endpoint bookkeeping on the real line: with the roots lo < hi of a
   * ray of positive length, the corrected hits measure the overlap of
   * [lo, hi] with the ray; the written ones measure the same, except that
   * they raise in the two boundary cases.
   */
  lemma Bookkeeping(lo: real, hi: real, length: real, originInside: bool, endInside: bool)
    requires lo < hi && 0.0 < length
    requires originInside <==> lo <= 0.0 <= hi
    requires endInside <==> lo <= length <= hi
    ensures ChordOf(WithEndpoints(OnRay([lo, hi], length), originInside, endInside, length)) == Ok(Overlap(lo, hi, length))
    ensures ChordOfAsWritten(WithEndpointsAsWritten(OnRay([lo, hi], length), originInside, endInside, length)) ==
      if RootAtEndpoint(lo, hi, length) then Err(ValueError(TwoCrossings)) else Ok(Overlap(lo, hi, length))
  {
    PairOnRay(lo, hi, length);
    var hits := (if 0.0 <= lo <= length then [lo] else []) + (if 0.0 <= hi <= length then [hi] else []);
    BookkeepingCorrected(lo, hi, length, originInside, endInside, hits);
    BookkeepingAsWritten(lo, hi, length, originInside, endInside, hits);
  }

  lemma BookkeepingCorrected(lo: real, hi: real, length: real, originInside: bool, endInside: bool, hits: seq<real>)
    requires lo < hi && 0.0 < length
    requires originInside <==> lo <= 0.0 <= hi
    requires endInside <==> lo <= length <= hi
    requires hits == (if 0.0 <= lo <= length then [lo] else []) + (if 0.0 <= hi <= length then [hi] else [])
    ensures ChordOf(WithEndpoints(hits, originInside, endInside, length)) == Ok(Overlap(lo, hi, length))
  {
    var in0, in1 := 0.0 <= lo <= length, 0.0 <= hi <= length;
    if in0 && in1 {
      assert hits == [lo, hi];
    } else if in0 || in1 {
      CorrectedSingle(lo, hi, length, originInside, endInside);
    } else {
      assert hits == [];
    }
  }

  lemma BookkeepingAsWritten(lo: real, hi: real, length: real, originInside: bool, endInside: bool, hits: seq<real>)
    requires lo < hi && 0.0 < length
    requires originInside <==> lo <= 0.0 <= hi
    requires endInside <==> lo <= length <= hi
    requires hits == (if 0.0 <= lo <= length then [lo] else []) + (if 0.0 <= hi <= length then [hi] else [])
    ensures ChordOfAsWritten(WithEndpointsAsWritten(hits, originInside, endInside, length)) ==
      if RootAtEndpoint(lo, hi, length) then Err(ValueError(TwoCrossings)) else Ok(Overlap(lo, hi, length))
  {
    var in0, in1 := 0.0 <= lo <= length, 0.0 <= hi <= length;
    if in0 && in1 {
      assert hits == [lo, hi];
    } else if in0 {
      assert hits == [lo];
    } else if in1 {
      assert hits == [hi];
    } else {
      assert hits == [];
    }
  }

  lemma CorrectedSingle(lo: real, hi: real, length: real, originInside: bool, endInside: bool)
    requires lo < hi && 0.0 < length
    requires originInside <==> lo <= 0.0 <= hi
    requires endInside <==> lo <= length <= hi
    requires (0.0 <= lo <= length) != (0.0 <= hi <= length)
    ensures var h := if 0.0 <= lo <= length then [lo] else [hi];
      ChordOf(WithEndpoints(h, originInside, endInside, length)) == Ok(Overlap(lo, hi, length))
  {
    if 0.0 <= lo <= length {
      if lo == 0.0 {
        assert WithEndpoints([lo], originInside, endInside, length) == [0.0, length];
      } else if lo == length {
        assert WithEndpoints([lo], originInside, endInside, length) == [length];
      } else {
        assert WithEndpoints([lo], originInside, endInside, length) == [lo, length];
      }
    } else {
      if hi == 0.0 {
        assert WithEndpoints([hi], originInside, endInside, length) == [0.0];
      } else if hi == length {
        assert WithEndpoints([hi], originInside, endInside, length) == [length, 0.0];
      } else {
        assert WithEndpoints([hi], originInside, endInside, length) == [hi, 0.0];
      }
    }
  }

  lemma PairOnRay(lo: real, hi: real, length: real)
    ensures OnRay([lo, hi], length) ==
      (if 0.0 <= lo <= length then [lo] else []) + (if 0.0 <= hi <= length then [hi] else [])
  {
    assert [lo, hi][..1] == [lo];
    assert [lo][..0] == [];
  }

  /**
   * Once the roots are known to be lo < hi and the endpoints placed
   * relative to them, both chords follow from the bookkeeping.
   */
  lemma ChordFromRoots(m: Math, ray: RayState, s: Sphere, lo: real, hi: real)
    requires 0.0 < SphereQuadratic(ray, s).Discriminant() && 0.0 < SphereQuadratic(ray, s).a
    requires LowRoot(m, SphereQuadratic(ray, s)) == lo && HighRoot(m, SphereQuadratic(ray, s)) == hi
    requires lo < hi && 0.0 < ray.length
    requires SphereContains(s, ray.origin) <==> lo <= 0.0 <= hi
    requires SphereContains(s, ray.end) <==> lo <= ray.length <= hi
    ensures SphereChord(m, ray, s) == Ok(Overlap(lo, hi, ray.length))
    ensures SphereChordAsWritten(m, ray, s) ==
      if RootAtEndpoint(lo, hi, ray.length) then Err(ValueError(TwoCrossings)) else Ok(Overlap(lo, hi, ray.length))
  {
    assert Candidates(m, SphereQuadratic(ray, s)) == [lo, hi];
    Bookkeeping(lo, hi, ray.length, SphereContains(s, ray.origin), SphereContains(s, ray.end));
  }

  /** For a regular ray, the corrected chord is the length of the ray inside the sphere; it never raises. */
  lemma SphereChordIsOverlap(m: Math, ray: RayState, s: Sphere)
    requires m.SqrtExact() && Regular(ray)
    ensures var q := SphereQuadratic(ray, s);
      SphereChord(m, ray, s) == Ok(if q.Discriminant() <= 0.0 then 0.0 else Overlap(LowRoot(m, q), HighRoot(m, q), ray.length))
  {
    var q := SphereQuadratic(ray, s);
    if 0.0 < q.Discriminant() {
      EndpointsInside(m, ray, s);
      ChordFromRoots(m, ray, s, LowRoot(m, q), HighRoot(m, q));
    }
  }

  /**
   * For a regular ray, the written chord is the length of the ray inside
   * the sphere, except that it raises when a root falls exactly on an
   * endpoint in the two boundary cases.
   */
  lemma SphereChordAsWrittenCases(m: Math, ray: RayState, s: Sphere)
    requires m.SqrtExact() && Regular(ray)
    ensures var q := SphereQuadratic(ray, s);
      SphereChordAsWritten(m, ray, s) ==
        if q.Discriminant() <= 0.0 then Ok(0.0)
        else if RootAtEndpoint(LowRoot(m, q), HighRoot(m, q), ray.length) then Err(ValueError(TwoCrossings))
        else Ok(Overlap(LowRoot(m, q), HighRoot(m, q), ray.length))
  {
    var q := SphereQuadratic(ray, s);
    if 0.0 < q.Discriminant() {
      EndpointsInside(m, ray, s);
      ChordFromRoots(m, ray, s, LowRoot(m, q), HighRoot(m, q));
    }
  }

  /** The facts `Bookkeeping` needs: a positive length, ordered roots, and where the endpoints lie. */
  lemma EndpointsInside(m: Math, ray: RayState, s: Sphere)
    requires m.SqrtExact() && Regular(ray)
    requires 0.0 < SphereQuadratic(ray, s).Discriminant()
    ensures 0.0 < SphereQuadratic(ray, s).a && 0.0 < ray.length
    ensures var q := SphereQuadratic(ray, s);
      var lo, hi := LowRoot(m, q), HighRoot(m, q);
      && lo < hi
      && (SphereContains(s, ray.origin) <==> lo <= 0.0 <= hi)
      && (SphereContains(s, ray.end) <==> lo <= ray.length <= hi)
  {
    var q := SphereQuadratic(ray, s);
    ZeroLeading(ray.dir, Sub(ray.origin, s.center));
    Factored(m, q, 0.0);
    SphereInterval(m, ray, s, 0.0);
    SphereInterval(m, ray, s, ray.length);
    OriginOnRay(ray);
  }

  /**
   * A ray from (10, 0, 0) on the surface of the sphere of radius 10 about
   * the origin to its center: the written code raises, the corrected one
   * measures the radius.
   */
  lemma SphereAsWrittenRaises(m: Math)
    requires m.sqrt(10.0 * 10.0) == 10.0 && m.sqrt(20.0 * 20.0) == 20.0
    ensures var ray := RayOf(m, Vec3(10.0, 0.0, 0.0), Vec3(0.0, 0.0, 0.0));
      var s := Sphere(Vec3(0.0, 0.0, 0.0), 10.0);
      SphereChordAsWritten(m, ray, s) == Err(ValueError(TwoCrossings)) &&
      SphereChord(m, ray, s) == Ok(10.0)
  {
    var r := RayOf(m, Vec3(10.0, 0.0, 0.0), Vec3(0.0, 0.0, 0.0));
    assert r.length == 10.0;
    RadiusThroughCenter(m, r.invdir, r.sign);
  }

  lemma RadiusThroughCenter(m: Math, invdir: ExtVec3, sign: seq<int>)
    requires m.sqrt(20.0 * 20.0) == 20.0
    ensures var ray := RayState(Vec3(10.0, 0.0, 0.0), Vec3(0.0, 0.0, 0.0), 10.0, Vec3(-1.0, 0.0, 0.0), invdir, sign);
      var s := Sphere(Vec3(0.0, 0.0, 0.0), 10.0);
      SphereChordAsWritten(m, ray, s) == Err(ValueError(TwoCrossings)) &&
      SphereChord(m, ray, s) == Ok(10.0)
  {
    RootsThroughCenter(m, invdir, sign);
    var ray := RayState(Vec3(10.0, 0.0, 0.0), Vec3(0.0, 0.0, 0.0), 10.0, Vec3(-1.0, 0.0, 0.0), invdir, sign);
    ChordFromRoots(m, ray, Sphere(Vec3(0.0, 0.0, 0.0), 10.0), 0.0, 20.0);
  }

  lemma RootsThroughCenter(m: Math, invdir: ExtVec3, sign: seq<int>)
    requires m.sqrt(20.0 * 20.0) == 20.0
    ensures var ray := RayState(Vec3(10.0, 0.0, 0.0), Vec3(0.0, 0.0, 0.0), 10.0, Vec3(-1.0, 0.0, 0.0), invdir, sign);
      var s := Sphere(Vec3(0.0, 0.0, 0.0), 10.0);
      var q := SphereQuadratic(ray, s);
      && 0.0 < q.Discriminant() && 0.0 < q.a
      && LowRoot(m, q) == 0.0 && HighRoot(m, q) == 20.0
      && SphereContains(s, ray.origin) && SphereContains(s, ray.end)
  {
    var ray := RayState(Vec3(10.0, 0.0, 0.0), Vec3(0.0, 0.0, 0.0), 10.0, Vec3(-1.0, 0.0, 0.0), invdir, sign);
    var s := Sphere(Vec3(0.0, 0.0, 0.0), 10.0);
    assert SphereQuadratic(ray, s) == Quadratic(1.0, -20.0, 0.0);
  }

  /**
   * `Shell._get_crossing_length`: the outer sphere's chord less the inner
   * sphere's, never negative; the outer sphere is measured first.
   */
  function ShellCrossing(m: Math, ray: RayState, inner: Sphere, outer: Sphere): Result<real>
  {
    var o := SphereChord(m, ray, outer);
    if o.Err? then o
    else
      var i := SphereChord(m, ray, inner);
      if i.Err? then i
      else Ok(if o.value - i.value < 0.0 then 0.0 else o.value - i.value)
  }

  /** The shell's crossing, measuring both spheres with the intersection routine. */
  method ShellCrossingLength(m: Math, ray: RayState, inner: Sphere, outer: Sphere) returns (r: Result<real>)
    ensures r == ShellCrossing(m, ray, inner, outer)
  {
    var o := RaySphereIntersection(m, ray, outer);
    if o.Err? {
      return o;
    }
    var i := RaySphereIntersection(m, ray, inner);
    if i.Err? {
      return i;
    }
    var crossing := o.value - i.value;
    if crossing < 0.0 {
      crossing := 0.0;
    }
    return Ok(crossing);
  }

  /**
   * For concentric spheres with the inner one no larger, the ray's part
   * inside the inner sphere lies inside the outer one, so the shell's
   * crossing is the plain difference of the chords and lies in [0, length].
   */
  lemma ShellCrossingDifference(m: Math, ray: RayState, inner: Sphere, outer: Sphere)
    requires m.SqrtExact() && Regular(ray)
    requires inner.center == outer.center && 0.0 <= inner.radius <= outer.radius
    ensures SphereChord(m, ray, inner).Ok? && SphereChord(m, ray, outer).Ok?
    ensures SphereChord(m, ray, inner).value <= SphereChord(m, ray, outer).value
    ensures ShellCrossing(m, ray, inner, outer) ==
      Ok(SphereChord(m, ray, outer).value - SphereChord(m, ray, inner).value)
    ensures 0.0 <= ShellCrossing(m, ray, inner, outer).value <= ray.length
  {
    SphereChordIsOverlap(m, ray, inner);
    SphereChordIsOverlap(m, ray, outer);
    var qi, qo := SphereQuadratic(ray, inner), SphereQuadratic(ray, outer);
    if 0.0 < qi.Discriminant() {
      NestedRoots(m, ray, inner, outer);
      ZeroLeading(ray.dir, Sub(ray.origin, inner.center));
      OverlapMonotone(LowRoot(m, qo), HighRoot(m, qo), LowRoot(m, qi), HighRoot(m, qi), ray.length);
    }
  }

  /** A wider interval overlaps the ray at least as much. */
  lemma OverlapMonotone(lo: real, hi: real, lo': real, hi': real, length: real)
    requires lo <= lo' && hi' <= hi
    ensures Overlap(lo', hi', length) <= Overlap(lo, hi, length)
  {
  }

  /** When the ray's line meets the inner sphere, it meets the outer one over a wider parameter interval. */
  lemma NestedRoots(m: Math, ray: RayState, inner: Sphere, outer: Sphere)
    requires m.SqrtExact()
    requires inner.center == outer.center && 0.0 <= inner.radius <= outer.radius
    requires 0.0 < SphereQuadratic(ray, inner).Discriminant()
    ensures 0.0 < SphereQuadratic(ray, inner).a
    ensures 0.0 < SphereQuadratic(ray, outer).Discriminant()
    ensures var qi, qo := SphereQuadratic(ray, inner), SphereQuadratic(ray, outer);
      LowRoot(m, qo) <= LowRoot(m, qi) && HighRoot(m, qi) <= HighRoot(m, qo)
  {
    var qi, qo := SphereQuadratic(ray, inner), SphereQuadratic(ray, outer);
    ZeroLeading(ray.dir, Sub(ray.origin, inner.center));
    var lo, hi := LowRoot(m, qi), HighRoot(m, qi);
    Factored(m, qi, lo);
    var mid := (lo + hi) / 2.0;
    StrictlyInside(m, qi, mid);
    InnerInsideOuter(ray, inner, outer, mid);
    SphereQuadraticMeaning(ray, inner, mid);
    SphereQuadraticMeaning(ray, outer, mid);
    if qo.Discriminant() <= 0.0 {
      NonNegativeOutsideRoots(qo, mid);
      assert false;
    }
    InnerInsideOuter(ray, inner, outer, lo);
    InnerInsideOuter(ray, inner, outer, hi);
    SphereInterval(m, ray, inner, lo);
    SphereInterval(m, ray, inner, hi);
    SphereInterval(m, ray, outer, lo);
    SphereInterval(m, ray, outer, hi);
  }

  /** The midpoint of the roots is a point where the quadratic is negative. */
  lemma StrictlyInside(m: Math, q: Quadratic, mid: real)
    requires m.SqrtExact() && 0.0 < q.a && 0.0 < q.Discriminant()
    requires mid == (LowRoot(m, q) + HighRoot(m, q)) / 2.0
    ensures q.ValueAt(mid) < 0.0
  {
    SignBetweenRoots(m, q, mid);
    Factored(m, q, mid);
  }

  /** A point inside the smaller of two concentric spheres is inside the larger, strictly so if strictly. */
  lemma InnerInsideOuter(ray: RayState, inner: Sphere, outer: Sphere, t: real)
    requires inner.center == outer.center && 0.0 <= inner.radius <= outer.radius
    ensures SphereContains(inner, PointAt(ray, t)) ==> SphereContains(outer, PointAt(ray, t))
    ensures var v := Sub(PointAt(ray, t), inner.center);
      Dot(v, v) < inner.radius * inner.radius ==> Dot(v, v) < outer.radius * outer.radius
  {
    SquaresOrdered(inner.radius, outer.radius);
  }

  lemma SquaresOrdered(ri: real, ro: real)
    requires 0.0 <= ri <= ro
    ensures ri * ri <= ro * ro
  {
    MulLeft(ri, ro, ri);
    MulLeft(ri, ro, ro);
    assert ro * ri == ri * ro;
  }
}
