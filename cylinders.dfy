/**
 * `CappedCylinder`: a solid cylinder of finite length between two end
 * disks, the axis-aligned variants, the intersection of a ray with its
 * side and caps, and the crossing length measured from those points.
 */
module Cylinders {
  import opened Wrappers
  import opened RealMath
  import opened Vectors
  import opened Rays
  import opened Geometry
  import opened Quadratics
  import opened Crossings
  import Annuli

  /** `CappedCylinder.__init__`: the ends, their distance as the length, and the axis divided by that length. */
  function NewCylinder(m: Math, start: Vec3, end: Vec3, radius: real): Cylinder
    requires Norm(m, Sub(end, start)) != 0.0
  {
    var length := Norm(m, Sub(end, start));
    Cylinder(start, end, length, DivScalar(Sub(end, start), length), radius)
  }

  /** A positive length, a unit axis, and the far end reached by walking the length along the axis. */
  predicate WellFormed(c: Cylinder)
  {
    0.0 < c.length && Dot(c.dir, c.dir) == 1.0 && c.end == Add(c.origin, Scale(c.dir, c.length))
  }

  /** Two distinct ends give a well-formed cylinder that keeps them and the radius. */
  lemma NewCylinderWellFormed(m: Math, start: Vec3, end: Vec3, radius: real)
    requires m.SqrtExact() && start != end
    ensures Norm(m, Sub(end, start)) != 0.0
    ensures var c := NewCylinder(m, start, end, radius);
      WellFormed(c) && c.origin == start && c.end == end && c.radius == radius &&
      c.length * c.length == Dot(Sub(end, start), Sub(end, start))
  {
    var v := Sub(end, start);
    assert v != Zero;
    NormProperties(m, v);
    DirectionFacts(v, Norm(m, v));
    var c := NewCylinder(m, start, end, radius);
    assert Scale(c.dir, c.length) == v;
  }

  /** The unit vector along coordinate axis 0 (x), 1 (y) or 2 (z). */
  function AxisUnit(axis: nat): Vec3
    requires axis < 3
  {
    if axis == 0 then Vec3(1.0, 0.0, 0.0) else if axis == 1 then Vec3(0.0, 1.0, 0.0) else Vec3(0.0, 0.0, 1.0)
  }

  /**
   * `XAlignedCylinder`, `YAlignedCylinder`, `ZAlignedCylinder`: the ends
   * half the length either side of the center along the axis.
   */
  function AlignedCylinder(m: Math, center: Vec3, axis: nat, length: real, radius: real): Cylinder
    requires axis < 3 && 0.0 < length && m.SqrtOfSquares()
  {
    var half := Scale(AxisUnit(axis), length / 2.0);
    var start, end := Sub(center, half), Add(center, half);
    AlignedSpan(center, axis, length);
    assert m.sqrt(Square(Abs(length))) == Abs(length);
    NewCylinder(m, start, end, radius)
  }

  lemma AlignedSpan(center: Vec3, axis: nat, length: real)
    requires axis < 3
    ensures var half := Scale(AxisUnit(axis), length / 2.0);
      var v := Sub(Add(center, half), Sub(center, half));
      v == Scale(AxisUnit(axis), length) && Dot(v, v) == Square(Abs(length))
  {
  }

  /**
   * An aligned cylinder runs from `center - length/2` to `center +
   * length/2` along its axis, is `length` long, and its direction is the
   * coordinate axis.
   */
  lemma AlignedCylinderFields(m: Math, center: Vec3, axis: nat, length: real, radius: real)
    requires axis < 3 && 0.0 < length && m.SqrtOfSquares()
    ensures var c := AlignedCylinder(m, center, axis, length, radius);
      var half := Scale(AxisUnit(axis), length / 2.0);
      c.origin == Sub(center, half) && c.end == Add(center, half) &&
      c.length == length && c.radius == radius && c.dir == AxisUnit(axis) &&
      WellFormed(c)
  {
    AlignedSpan(center, axis, length);
    assert m.sqrt(Square(Abs(length))) == Abs(length);
    AxisQuotient(axis, length);
  }

  /** The axis vector scaled by `length` and divided by it again. */
  lemma AxisQuotient(axis: nat, length: real)
    requires axis < 3 && 0.0 < length
    ensures DivScalar(Scale(AxisUnit(axis), length), length) == AxisUnit(axis)
  {
    UnitDiv(length);
  }

  lemma UnitDiv(l: real)
    requires 0.0 < l
    ensures (1.0 * l) / l == 1.0 && (0.0 * l) / l == 0.0
  {
  }

  /** The position of `p` along the axis, measured from the start disk. */
  function Axial(c: Cylinder, p: Vec3): real
  {
    Dot(Sub(p, c.origin), c.dir)
  }

  /** A side root is kept when it lies on the ray and its point between the start plane (included) and the end plane (excluded). */
  function SideKept(ray: RayState, c: Cylinder, t: real): (r: seq<Vec3>)
    ensures |r| <= 1
  {
    if 0.0 <= t <= ray.length && 0.0 <= Axial(c, PointAt(ray, t)) < c.length then [PointAt(ray, t)] else []
  }

  /** The kept side roots of `ts`, in order. */
  function SideKeptAll(ray: RayState, c: Cylinder, ts: seq<real>): (r: seq<Vec3>)
    ensures |r| <= |ts|
  {
    if |ts| == 0 then [] else SideKeptAll(ray, c, ts[..|ts| - 1]) + SideKept(ray, c, ts[|ts| - 1])
  }

  /** The side hits: none unless the discriminant is positive, else the larger root, then the smaller. */
  function SideHits(m: Math, ray: RayState, c: Cylinder): (r: seq<Vec3>)
    ensures |r| <= 2
  {
    var q := Annuli.SideQuadratic(ray, c.origin, c.dir, c.radius);
    if q.Discriminant() <= 0.0 then []
    else
      Annuli.SideLeading(ray, c.origin, c.dir, c.radius);
      Annuli.UprightLeading(q);
      SideKeptAll(ray, c, [HighRoot(m, q), LowRoot(m, q)])
  }

  /** The hit on the cap disk about `center`: on the ray and strictly inside the rim. */
  function CapHit(ray: RayState, c: Cylinder, center: Vec3): (r: seq<Vec3>)
    ensures |r| <= 1
  {
    match LinePlaneCollision(c.dir, center, ray.origin, ray.dir)
    case None => []
    case Some(t) =>
      var radial := Sub(PointAt(ray, t), center);
      if 0.0 <= t <= ray.length && Dot(radial, radial) < c.radius * c.radius then [PointAt(ray, t)] else []
  }

  /** The cap hits for each disk center of `centers` in turn. */
  function CapHits(ray: RayState, c: Cylinder, centers: seq<Vec3>): (r: seq<Vec3>)
    ensures |r| <= |centers|
  {
    if |centers| == 0 then [] else CapHits(ray, c, centers[..|centers| - 1]) + CapHit(ray, c, centers[|centers| - 1])
  }

  /** `CappedCylinder._intersect`: the side hits, then the start cap's, then the end cap's. */
  function CylinderHits(m: Math, ray: RayState, c: Cylinder): (r: seq<Vec3>)
    ensures |r| <= 4
  {
    SideHits(m, ray, c) + CapHits(ray, c, [c.origin, c.end])
  }

  lemma CapHitsPair(ray: RayState, c: Cylinder)
    ensures CapHits(ray, c, [c.origin, c.end]) == CapHit(ray, c, c.origin) + CapHit(ray, c, c.end)
  {
    assert [c.origin, c.end][..1] == [c.origin];
    assert [c.origin][..0] == [];
  }

  lemma SideKeptPair(ray: RayState, c: Cylinder, t1: real, t2: real)
    ensures SideKeptAll(ray, c, [t1, t2]) == SideKept(ray, c, t1) + SideKept(ray, c, t2)
  {
    assert [t1, t2][..1] == [t1];
    assert [t1][..0] == [];
  }

  /** The first half of `_intersect`: the side quadratic, its two roots, and the loop keeping those on the ray and between the end planes. */
  method SideIntersect(m: Math, ray: RayState, c: Cylinder) returns (results: seq<Vec3>)
    ensures results == SideHits(m, ray, c)
  {
    results := [];
    var q := Annuli.SideCoefficients(ray, c.origin, c.dir, c.radius);
    var zoro := q.b * q.b - 4.0 * q.a * q.c;
    assert zoro == q.Discriminant();
    if zoro > 0.0 {
      Annuli.SideLeading(ray, c.origin, c.dir, c.radius);
      Annuli.UprightLeading(q);
      var t1, t2 := Annuli.RootPair(m, q, zoro);
      results := KeepSideRoots(ray, c, [t1, t2]);
    }
  }

  /** The loop over the two side roots: keep those on the ray whose points lie between the end planes. */
  method KeepSideRoots(ray: RayState, c: Cylinder, ts: seq<real>) returns (results: seq<Vec3>)
    ensures results == SideKeptAll(ray, c, ts)
  {
    results := [];
    for i := 0 to |ts|
      invariant results == SideKeptAll(ray, c, ts[..i])
    {
      assert ts[..i + 1][..i] == ts[..i];
      var t := ts[i];
      if t >= 0.0 && t <= ray.length {
        var intersection := Add(ray.origin, Scale(ray.dir, t));
        var loc := Dot(Sub(intersection, c.origin), c.dir);
        if loc >= 0.0 && loc < c.length {
          results := results + [intersection];
        }
      }
    }
    assert ts[..|ts|] == ts;
  }

  /** The second half of `_intersect`: the loop over the two cap disks. */
  method CapIntersect(ray: RayState, c: Cylinder) returns (results: seq<Vec3>)
    ensures results == CapHits(ray, c, [c.origin, c.end])
  {
    results := [];
    var centers := [c.origin, c.end];
    for i := 0 to |centers|
      invariant results == CapHits(ray, c, centers[..i])
    {
      assert centers[..i + 1][..i] == centers[..i];
      var hit := CapStep(ray, c, centers[i]);
      results := results + hit;
    }
    assert centers[..|centers|] == centers;
  }

  /** One pass of the cap loop: the collision with the disk's plane, kept when on the ray and inside the rim. */
  method CapStep(ray: RayState, c: Cylinder, center: Vec3) returns (hit: seq<Vec3>)
    ensures hit == CapHit(ray, c, center)
  {
    hit := [];
    var t := LinePlaneCollision(c.dir, center, ray.origin, ray.dir);
    if t.Some? && t.value >= 0.0 && t.value <= ray.length {
      var point := Add(ray.origin, Scale(ray.dir, t.value));
      var radial := Sub(point, center);
      if Dot(radial, radial) < c.radius * c.radius {
        hit := [point];
      }
    }
  }

  /** `CappedCylinder._intersect`: the side hits, then the cap hits. */
  method Intersect(m: Math, ray: RayState, c: Cylinder) returns (results: seq<Vec3>)
    ensures results == CylinderHits(m, ray, c)
  {
    var sides := SideIntersect(m, ray, c);
    var caps := CapIntersect(ray, c);
    results := sides + caps;
  }

  /** `CappedCylinder._get_crossing_length` exactly as written. */
  function CylinderCrossingAsWritten(m: Math, ray: RayState, c: Cylinder): Result<real>
  {
    DistanceAsWritten(m, WithEndpointsAsWritten(CylinderHits(m, ray, c), ray, CylinderContains(c, ray.origin), CylinderContains(c, ray.end)))
  }

  /**
   * The written routine: intersect; when there are not two points, insert
   * a contained start in front and append a contained end; then no points
   * measure 0, a count other than two raises, and two points measure their
   * distance.
   */
  method CrossingLength(m: Math, ray: RayState, c: Cylinder) returns (r: Result<real>)
    ensures r == CylinderCrossingAsWritten(m, ray, c)
  {
    var crossings := Intersect(m, ray, c);
    if |crossings| != 2 {
      if CylinderContains(c, ray.origin) {
        crossings := [ray.origin] + crossings;
      }
      if CylinderContains(c, ray.end) {
        crossings := crossings + [ray.end];
      }
    }
    if |crossings| == 0 {
      return Ok(0.0);
    }
    if |crossings| != 2 {
      return Err(ValueError(TwoCrossings));
    }
    return Ok(Norm(m, Sub(crossings[0], crossings[1])));
  }

  /** The kept side roots lie on the ray. */
  lemma SideHitsOnSegment(m: Math, ray: RayState, c: Cylinder)
    ensures AllOnSegment(ray, SideHits(m, ray, c))
  {
    var q := Annuli.SideQuadratic(ray, c.origin, c.dir, c.radius);
    if 0.0 < q.Discriminant() {
      Annuli.SideLeading(ray, c.origin, c.dir, c.radius);
      Annuli.UprightLeading(q);
      SideKeptPair(ray, c, HighRoot(m, q), LowRoot(m, q));
    }
  }

  /** Every point `_intersect` returns lies on the ray between its ends. */
  lemma HitsOnSegment(m: Math, ray: RayState, c: Cylinder)
    ensures AllOnSegment(ray, CylinderHits(m, ray, c))
  {
    SideHitsOnSegment(m, ray, c);
    CapHitsPair(ray, c);
  }

  /** Either way, the crossing measured along a regular ray lies in [0, length]. */
  lemma CrossingBounded(m: Math, ray: RayState, c: Cylinder)
    requires m.SqrtOfSquares() && Regular(ray)
    ensures CylinderCrossingAsWritten(m, ray, c).Ok? ==> 0.0 <= CylinderCrossingAsWritten(m, ray, c).value <= ray.length
  {
    var points := CylinderHits(m, ray, c);
    var oi, ei := CylinderContains(c, ray.origin), CylinderContains(c, ray.end);
    HitsOnSegment(m, ray, c);
    WithEndpointsOnSegment(ray, points, oi, ei);
    DistanceBounded(m, ray, WithEndpointsAsWritten(points, ray, oi, ei));
  }

  /** The squared length of `a - b` is that of `b - a`. */
  lemma DotSubSwap(a: Vec3, b: Vec3)
    ensures Dot(Sub(a, b), Sub(a, b)) == Dot(Sub(b, a), Sub(b, a))
  {
  }

  /** A kept side root is a point of the cylinder's side: at the radius, between the end planes. */
  lemma SideKeptContained(m: Math, ray: RayState, c: Cylinder, t: real)
    requires Annuli.SideQuadratic(ray, c.origin, c.dir, c.radius).ValueAt(t) == 0.0
    requires 0.0 < c.length
    ensures forall i :: 0 <= i < |SideKept(ray, c, t)| ==> CylinderContains(c, SideKept(ray, c, t)[i])
  {
    var p := PointAt(ray, t);
    Annuli.RadialQuadratic(ray, c.origin, c.dir, c.radius, t);
    if SideKept(ray, c, t) != [] {
      assert SideKept(ray, c, t) == [p];
      OnSide(c, p);
    }
  }

  lemma OnSide(c: Cylinder, p: Vec3)
    requires 0.0 <= Axial(c, p) < c.length
    requires var q := RadialOffset(c.origin, c.dir, p); Dot(q, q) - c.radius * c.radius == 0.0
    ensures CylinderContains(c, p)
  {
  }

  /** The side hits lie on the side of the cylinder. */
  lemma SideHitsContained(m: Math, ray: RayState, c: Cylinder)
    requires m.SqrtExact() && 0.0 < c.length
    ensures forall i :: 0 <= i < |SideHits(m, ray, c)| ==> CylinderContains(c, SideHits(m, ray, c)[i])
  {
    var q := Annuli.SideQuadratic(ray, c.origin, c.dir, c.radius);
    if 0.0 < q.Discriminant() {
      Annuli.SideLeading(ray, c.origin, c.dir, c.radius);
      Annuli.UprightLeading(q);
      RootsAreZeros(m, q);
      SideKeptPair(ray, c, HighRoot(m, q), LowRoot(m, q));
      SideKeptContained(m, ray, c, HighRoot(m, q));
      SideKeptContained(m, ray, c, LowRoot(m, q));
    }
  }

  /** A hit on the start disk lies on that disk: axial position 0, inside the rim. */
  lemma StartCapContained(ray: RayState, c: Cylinder)
    requires WellFormed(c)
    ensures forall i :: 0 <= i < |CapHit(ray, c, c.origin)| ==> CylinderContains(c, CapHit(ray, c, c.origin)[i])
  {
    var hit := LinePlaneCollision(c.dir, c.origin, ray.origin, ray.dir);
    if hit.Some? {
      var p := PointAt(ray, hit.value);
      assert Axial(c, p) == 0.0;
      assert RadialOffset(c.origin, c.dir, p) == Sub(c.origin, p);
      DotSubSwap(c.origin, p);
    }
  }

  /** A hit on the end disk lies on that disk: axial position `length`, inside the rim. */
  lemma EndCapContained(ray: RayState, c: Cylinder)
    requires WellFormed(c)
    ensures forall i :: 0 <= i < |CapHit(ray, c, c.end)| ==> CylinderContains(c, CapHit(ray, c, c.end)[i])
  {
    var hit := LinePlaneCollision(c.dir, c.end, ray.origin, ray.dir);
    if hit.Some? {
      var p := PointAt(ray, hit.value);
      var w := Sub(p, c.end);
      assert Dot(w, c.dir) == 0.0;
      assert Sub(p, c.origin) == Add(w, Scale(c.dir, c.length));
      Annuli.DotOnLine(w, c.dir, c.dir, c.length);
      assert Axial(c, p) == c.length;
      assert RadialOffset(c.origin, c.dir, p) == Sub(c.end, p);
      DotSubSwap(c.end, p);
    }
  }

  /**
   * Every point `_intersect` returns lies in the closed cylinder (on its
   * surface) and on the ray.
   */
  lemma HitsContained(m: Math, ray: RayState, c: Cylinder)
    requires m.SqrtExact() && WellFormed(c)
    ensures AllOnSegment(ray, CylinderHits(m, ray, c))
    ensures forall i :: 0 <= i < |CylinderHits(m, ray, c)| ==> CylinderContains(c, CylinderHits(m, ray, c)[i])
  {
    HitsOnSegment(m, ray, c);
    SideHitsContained(m, ray, c);
    CapHitsPair(ray, c);
    StartCapContained(ray, c);
    EndCapContained(ray, c);
  }

  /** A tangent or missing line adds no side hits, and then it never enters the side surface. */
  lemma TangentAddsNothing(m: Math, ray: RayState, c: Cylinder, t: real)
    requires m.SqrtExact()
    requires Annuli.SideQuadratic(ray, c.origin, c.dir, c.radius).Discriminant() <= 0.0
    ensures SideHits(m, ray, c) == []
    ensures var q := Annuli.SideQuadratic(ray, c.origin, c.dir, c.radius);
      0.0 < q.a ==> 0.0 <= q.ValueAt(t)
  {
    var q := Annuli.SideQuadratic(ray, c.origin, c.dir, c.radius);
    if 0.0 < q.a {
      if q.Discriminant() < 0.0 {
        NoRealRoots(q, t);
      } else {
        DoubleRoot(m, q, t);
        Completed(q, t);
        var s := 2.0 * q.a * t + q.b;
        var k, v := 4.0 * q.a, q.ValueAt(t);
        assert k * v == s * s;
        assert 0.0 <= s * s by { if s < 0.0 { PositiveProduct(-s, -s); } else if 0.0 < s { PositiveProduct(s, s); } }
        SignOfScaled(k, v);
      }
    }
  }

  /** A set of ray parameters: none, all, or a closed interval (empty when `lo > hi`). */
  datatype Span = Nowhere | Everywhere | Between(lo: real, hi: real)
  {
    predicate Has(t: real)
    {
      match this
      case Nowhere => false
      case Everywhere => true
      case Between(lo, hi) => lo <= t <= hi
    }

    /** The intersection of two spans. */
    function Meet(other: Span): (r: Span)
      ensures forall t :: r.Has(t) <==> Has(t) && other.Has(t)
    {
      match (this, other)
      case (Nowhere, _) => Nowhere
      case (_, Nowhere) => Nowhere
      case (Everywhere, _) => other
      case (_, Everywhere) => this
      case (Between(l1, h1), Between(l2, h2)) => Between(Max(l1, l2), Min(h1, h2))
    }

    /** The length of the part of [0, length] the span covers. */
    function Measure(length: real): (r: real)
      ensures 0.0 <= length ==> 0.0 <= r <= length
    {
      match this
      case Nowhere => 0.0
      case Everywhere => length
      case Between(lo, hi) => Overlap(lo, hi, length)
    }
  }

  /** The parameters at which the quadratic is at most zero: inside or on the infinite cylinder. */
  function SideSpan(m: Math, q: Quadratic): Span
  {
    if 0.0 < q.a then
      if q.Discriminant() < 0.0 then Nowhere else Between(LowRoot(m, q), HighRoot(m, q))
    else if q.c <= 0.0 then Everywhere
    else Nowhere
  }

  lemma SideSpanHas(m: Math, q: Quadratic, t: real)
    requires m.SqrtExact() && Annuli.Upright(q)
    ensures SideSpan(m, q).Has(t) <==> q.ValueAt(t) <= 0.0
  {
    if 0.0 < q.a {
      if 0.0 < q.Discriminant() {
        SignBetweenRoots(m, q, t);
      } else if q.Discriminant() == 0.0 {
        DoubleRoot(m, q, t);
      } else {
        NoRealRoots(q, t);
      }
    } else {
      Annuli.FlatValue(q, t);
    }
  }

  /** The parameters at which `h + k t`, the axial position, lies in [0, length]. */
  function SlabSpan(h: real, k: real, length: real): Span
  {
    if 0.0 < k then Between(-h / k, (length - h) / k)
    else if k < 0.0 then Between((length - h) / k, -h / k)
    else if 0.0 <= h <= length then Everywhere
    else Nowhere
  }

  /** Dividing by a positive `k`: `x / k <= t` iff `x <= k t`, and the other way round. */
  lemma DivPositive(x: real, k: real, t: real)
    requires 0.0 < k
    ensures x / k <= t <==> x <= k * t
    ensures t <= x / k <==> k * t <= x
  {
    var y := x / k;
    assert y * k == x;
    if y < t {
      PositiveProduct(t - y, k);
    } else if t < y {
      PositiveProduct(y - t, k);
    }
  }

  /** Dividing by a negative `k` turns the comparisons round. */
  lemma DivNegative(x: real, k: real, t: real)
    requires k < 0.0
    ensures x / k <= t <==> k * t <= x
    ensures t <= x / k <==> x <= k * t
  {
    var y := x / k;
    assert y * k == x;
    if y < t {
      PositiveProduct(t - y, -k);
    } else if t < y {
      PositiveProduct(y - t, -k);
    }
  }

  lemma SlabSpanHas(h: real, k: real, length: real, t: real)
    ensures SlabSpan(h, k, length).Has(t) <==> 0.0 <= h + k * t <= length
  {
    if 0.0 < k {
      DivPositive(-h, k, t);
      DivPositive(length - h, k, t);
    } else if k < 0.0 {
      DivNegative(length - h, k, t);
      DivNegative(-h, k, t);
    }
  }

  /**
   * The parameters at which the ray's line is inside the closed cylinder:
   * inside the infinite cylinder and between the two end planes.
   */
  function CylinderSpan(m: Math, ray: RayState, c: Cylinder): Span
  {
    var q := Annuli.SideQuadratic(ray, c.origin, c.dir, c.radius);
    SideSpan(m, q).Meet(SlabSpan(Dot(Sub(ray.origin, c.origin), c.dir), Dot(ray.dir, c.dir), c.length))
  }

  /** Inside the infinite cylinder: the side span holds `t` iff the radial test of `_contains` passes at its point. */
  lemma SideSpanContains(m: Math, ray: RayState, c: Cylinder, t: real)
    requires m.SqrtExact()
    ensures var q := RadialOffset(c.origin, c.dir, PointAt(ray, t));
      SideSpan(m, Annuli.SideQuadratic(ray, c.origin, c.dir, c.radius)).Has(t) <==> !(Dot(q, q) > c.radius * c.radius)
  {
    Annuli.SideLeading(ray, c.origin, c.dir, c.radius);
    SideSpanHas(m, Annuli.SideQuadratic(ray, c.origin, c.dir, c.radius), t);
    Annuli.RadialQuadratic(ray, c.origin, c.dir, c.radius, t);
  }

  /** Between the end planes: the slab span holds `t` iff the axial test of `_contains` passes at its point. */
  lemma SlabSpanContains(ray: RayState, c: Cylinder, t: real)
    ensures SlabSpan(Dot(Sub(ray.origin, c.origin), c.dir), Dot(ray.dir, c.dir), c.length).Has(t) <==>
      0.0 <= Axial(c, PointAt(ray, t)) <= c.length
  {
    var w := Sub(ray.origin, c.origin);
    assert Sub(PointAt(ray, t), c.origin) == Add(w, Scale(ray.dir, t));
    Annuli.DotOnLine(w, ray.dir, c.dir, t);
    SlabSpanHas(Dot(w, c.dir), Dot(ray.dir, c.dir), c.length, t);
  }

  /** The span holds exactly the parameters whose points `_contains` accepts. */
  lemma CylinderSpanHas(m: Math, ray: RayState, c: Cylinder, t: real)
    requires m.SqrtExact()
    ensures CylinderSpan(m, ray, c).Has(t) <==> CylinderContains(c, PointAt(ray, t))
  {
    SideSpanContains(m, ray, c, t);
    SlabSpanContains(ray, c, t);
  }

  /**
   * The crossing length corrected: the length of the part of the ray whose
   * points lie in the closed cylinder, found from the parameter interval
   * rather than from the surface points.
   */
  function CylinderCrossing(m: Math, ray: RayState, c: Cylinder): (r: real)
    ensures 0.0 <= ray.length ==> 0.0 <= r <= ray.length
  {
    CylinderSpan(m, ray, c).Measure(ray.length)
  }

  /**
   * The corrected crossing measures, on [0, length], the set of parameters
   * whose points the cylinder contains, and that set is an interval.
   */
  lemma CylinderCrossingMeasuresContained(m: Math, ray: RayState, c: Cylinder)
    requires m.SqrtExact()
    ensures forall t :: CylinderSpan(m, ray, c).Has(t) <==> CylinderContains(c, PointAt(ray, t))
    ensures CylinderSpan(m, ray, c).Between? ==>
      CylinderCrossing(m, ray, c) == Overlap(CylinderSpan(m, ray, c).lo, CylinderSpan(m, ray, c).hi, ray.length)
    ensures CylinderSpan(m, ray, c).Everywhere? ==> CylinderCrossing(m, ray, c) == ray.length
    ensures CylinderSpan(m, ray, c).Nowhere? ==> CylinderCrossing(m, ray, c) == 0.0
  {
    forall t
      ensures CylinderSpan(m, ray, c).Has(t) <==> CylinderContains(c, PointAt(ray, t))
    {
      CylinderSpanHas(m, ray, c, t);
    }
  }
}
