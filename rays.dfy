/**
 * The finite-length ray of the shielding calculation: a start, an end, and
 * the derived origin, length, unit direction, inverse direction and sign
 * vector that the shield intersection routines read.
 */
module Rays {
  import opened Wrappers
  import opened PyValues
  import opened RealMath
  import opened Vectors
  import opened ExtReals

  datatype ExtVec3 = ExtVec3(x: ExtReal, y: ExtReal, z: ExtReal)

  /** The derived fields of a ray, as the shield routines see them. */
  datatype RayState = RayState(
    origin: Vec3,
    end: Vec3,
    length: real,
    dir: Vec3,
    invdir: ExtVec3,
    sign: seq<int>)

  /** An iterable of exactly three numbers. */
  predicate IsValidVector(v: Value)
  {
    IsIterable(v) && |Elements(v)| == 3 && forall e <- Elements(v) :: IsNumber(e)
  }

  /** The coordinates of a valid vector, `numpy.array(v)`. */
  function ToVec3(v: Value): Vec3
    requires IsValidVector(v)
  {
    var e := Elements(v);
    Vec3(AsReal(e[0]), AsReal(e[1]), AsReal(e[2]))
  }

  /** A string is never a valid vector, even one of three characters. */
  lemma ValidVectorIsNumberList(v: Value)
    ensures IsValidVector(v) <==>
      v.Seq? && |v.items| == 3 && IsNumber(v.items[0]) && IsNumber(v.items[1]) && IsNumber(v.items[2])
  {
    if v.Str? && |v.s| == 3 {
      assert !IsNumber(Elements(v)[0]);
    }
  }

  /** The sign flag of one inverse-direction component: 1 when it is negative. */
  function SignOf(a: ExtReal): int
  {
    if Negative(a) then 1 else 0
  }

  /** The derived fields computed from a start and an end point. */
  function RayOf(m: Math, start: Vec3, end: Vec3): (r: RayState)
    ensures |r.sign| == 3
  {
    var v := Sub(end, start);
    var length := Norm(m, v);
    var dir := if length == 0.0 then Zero else DivScalar(v, length);
    var invdir := ExtVec3(Recip(dir.x), Recip(dir.y), Recip(dir.z));
    RayState(start, end, length, dir, invdir, [SignOf(invdir.x), SignOf(invdir.y), SignOf(invdir.z)])
  }

  /**
   * The ray starts at `start`, has length |end - start|, which is zero only
   * for coincident points, and walking `length` along the unit direction
   * from the origin arrives at `end`.  A zero-length ray has the zero direction.
   */
  lemma RayGeometry(m: Math, start: Vec3, end: Vec3)
    requires m.SqrtExact()
    ensures var r := RayOf(m, start, end);
      && r.origin == start
      && r.end == end
      && 0.0 <= r.length
      && r.length * r.length == Dot(Sub(end, start), Sub(end, start))
      && (r.length == 0.0 <==> start == end)
      && (r.length == 0.0 ==> r.dir == Zero)
      && (r.length != 0.0 ==> Dot(r.dir, r.dir) == 1.0)
      && Add(r.origin, Scale(r.dir, r.length)) == end
  {
    var v := Sub(end, start);
    NormProperties(m, v);
    var l := Norm(m, v);
    assert v == Zero <==> start == end;
    DirectionFacts(v, l);
    assert Add(start, v) == end;
  }

  /** The direction `v / l` for a vector `v` of length `l`. */
  lemma DirectionFacts(v: Vec3, l: real)
    requires 0.0 <= l && l * l == Dot(v, v)
    requires l == 0.0 <==> v == Zero
    ensures var d := if l == 0.0 then Zero else DivScalar(v, l);
      && (l != 0.0 ==> Dot(d, d) == 1.0)
      && Scale(d, l) == v
  {
    if l != 0.0 {
      var d := DivScalar(v, l);
      QuotientSquare(v.x, l);
      QuotientSquare(v.y, l);
      QuotientSquare(v.z, l);
      assert Dot(d, d) * (l * l) == Dot(v, v);
      assert Dot(d, d) == 1.0 by {
        ProductZero(Dot(d, d) - 1.0, l * l);
      }
    }
  }

  lemma QuotientSquare(x: real, l: real)
    requires l != 0.0
    ensures (x / l) * (x / l) * (l * l) == x * x
    ensures (x / l) * l == x
  {
    var q := x / l;
    assert q * l == x;
    assert q * q * (l * l) == (q * l) * (q * l);
  }

  /** `sign[i]` is 0 or 1, and it is 1 exactly when the direction component is negative. */
  lemma SignMatchesDirection(m: Math, start: Vec3, end: Vec3, i: nat)
    requires i < 3
    ensures var r := RayOf(m, start, end);
      (r.sign[i] == 0 || r.sign[i] == 1) && (r.sign[i] == 1 <==> At(r.dir, i) < 0.0)
  {
    var d := At(RayOf(m, start, end).dir, i);
    if d != 0.0 {
      assert d < 0.0 <==> 1.0 / d < 0.0;
    }
  }

  /** Swapping start and end keeps the length and negates the direction. */
  lemma ReversedRay(m: Math, start: Vec3, end: Vec3)
    ensures RayOf(m, end, start).length == RayOf(m, start, end).length
    ensures RayOf(m, end, start).dir == Neg(RayOf(m, start, end).dir)
  {
    var v := Sub(end, start);
    var w := Sub(start, end);
    assert w == Neg(v);
    NormNeg(m, v);
    var l := Norm(m, v);
    assert Norm(m, w) == l;
    if l != 0.0 {
      assert DivScalar(w, l) == Neg(DivScalar(v, l));
    }
  }

  /**
   * A ray object.  `Valid()` ties the derived fields to the start and end,
   * as `_regularize` leaves them after every construction and update.
   */
  class FiniteLengthRay {
    const math: Math
    var start: Vec3
    var end: Vec3
    var origin: Vec3
    var length: real
    var dir: Vec3
    var invdir: ExtVec3
    var sign: seq<int>

    /** The derived fields as a value. */
    function State(): RayState
      reads this
    {
      RayState(origin, end, length, dir, invdir, sign)
    }

    ghost predicate Valid()
      reads this
    {
      State() == RayOf(math, start, end)
    }

    /** A ray between two already validated points. */
    constructor FromPoints(m: Math, s: Vec3, e: Vec3)
      ensures Valid() && math == m && start == s && end == e
    {
      math := m;
      start := s;
      end := e;
      new;
      Regularize();
    }

    /** Validates both end points before building the ray; the start is checked first. */
    static method Create(m: Math, start: Value, end: Value) returns (r: Result<FiniteLengthRay>)
      ensures r.Ok? <==> IsValidVector(start) && IsValidVector(end)
      ensures !IsValidVector(start) ==> r == Err(ValueError("Invalid ray start"))
      ensures IsValidVector(start) && !IsValidVector(end) ==> r == Err(ValueError("Invalid ray end"))
      ensures r.Ok? ==>
        fresh(r.value) && r.value.Valid() && r.value.math == m &&
        r.value.start == ToVec3(start) && r.value.end == ToVec3(end)
    {
      if !IsValidVector(start) {
        return Err(ValueError("Invalid ray start"));
      }
      if !IsValidVector(end) {
        return Err(ValueError("Invalid ray end"));
      }
      var ray := new FiniteLengthRay.FromPoints(m, ToVec3(start), ToVec3(end));
      return Ok(ray);
    }

    /** The `start` setter: an invalid value raises and leaves the ray as it was. */
    method SetStart(value: Value) returns (o: Outcome)
      modifies this
      ensures o.Pass? <==> IsValidVector(value)
      ensures o.Fail? ==> o == Fail(ValueError("Invalid ray start")) && unchanged(this)
      ensures o.Pass? ==> Valid() && start == ToVec3(value) && end == old(end)
    {
      if !IsValidVector(value) {
        return Fail(ValueError("Invalid ray start"));
      }
      start := ToVec3(value);
      Regularize();
      return Pass;
    }

    /** The `end` setter: an invalid value raises and leaves the ray as it was. */
    method SetEnd(value: Value) returns (o: Outcome)
      modifies this
      ensures o.Pass? <==> IsValidVector(value)
      ensures o.Fail? ==> o == Fail(ValueError("Invalid ray end")) && unchanged(this)
      ensures o.Pass? ==> Valid() && end == ToVec3(value) && start == old(start)
    {
      if !IsValidVector(value) {
        return Fail(ValueError("Invalid ray end"));
      }
      end := ToVec3(value);
      Regularize();
      return Pass;
    }

    /** Recomputes the derived fields from `start` and `end`, sign entry by sign entry. */
    method Regularize()
      modifies this
      ensures Valid() && start == old(start) && end == old(end)
    {
      origin := start;
      var v := Sub(end, origin);
      length := Norm(math, v);
      if length == 0.0 {
        dir := Zero;
      } else {
        dir := DivScalar(v, length);
      }
      invdir := ExtVec3(Recip(dir.x), Recip(dir.y), Recip(dir.z));
      sign := [0, 0, 0];
      sign := sign[0 := SignOf(invdir.x)];
      sign := sign[1 := SignOf(invdir.y)];
      sign := sign[2 := SignOf(invdir.z)];
    }
  }
}
