/**
 * `Shield` and its subclasses as one value: the material the shield is
 * made of and the solid it occupies.  The constructors' checks, `is_hollow`,
 * the dispatch of the crossing length to the solid's routine, and
 * `get_crossing_mfp`.
 */
module Shields {
  import opened Wrappers
  import opened RealMath
  import opened Vectors
  import opened PyValues
  import opened Text
  import opened Rays
  import opened Geometry
  import opened Materials
  import Slabs
  import Spheres
  import Boxes
  import Annuli
  import Cylinders

  /**
   * The solid of each shield class.  A shell keeps its inner sphere's
   * geometry and its outer sphere, whose material is the one its mean
   * free paths are computed with.
   */
  datatype Body =
    | XSlab(xStart: real, xEnd: real)
    | Ball(sphere: Sphere)
    | Shell(inner: Sphere, outer: Sphere, outerMaterial: Material)
    | Cuboid(box: Box)
    | Ring(annulus: Annulus)
    | Can(cylinder: Cylinder)

  datatype Shield = Shield(material: Material, body: Body)

  /** `is_hollow`: each class answers with a constant. */
  function IsHollow(s: Shield): bool
  {
    match s.body
    case XSlab(_, _) => false
    case Ball(_) => false
    case Shell(_, _, _) => true
    case Cuboid(_) => false
    case Ring(_) => true
    case Can(_) => false
  }

  /**
   * The hollow classes are the ones whose own center can lie outside them:
   * the center of a shell with a positive inner radius and the axis of an
   * annulus with a positive inner radius are not contained.
   */
  lemma HollowExcludesCenter(s: Shield)
    requires s.body.Shell? ==> s.body.inner.center == s.body.outer.center && 0.0 < s.body.inner.radius
    requires s.body.Ring? ==> 0.0 < s.body.annulus.innerRadius
    ensures IsHollow(s) <==> s.body.Shell? || s.body.Ring?
    ensures s.body.Shell? ==> !ShellContains(s.body.inner, s.body.outer, s.body.outer.center)
    ensures s.body.Ring? ==> !AnnulusContains(s.body.annulus, s.body.annulus.origin)
  {
    if s.body.Shell? {
      HoleExcludesCenter(s.body.inner, s.body.outer);
    } else if s.body.Ring? {
      AxisOutsideAnnulus(s.body.annulus);
    }
  }

  lemma HoleExcludesCenter(inner: Sphere, outer: Sphere)
    requires inner.center == outer.center && 0.0 < inner.radius
    ensures !ShellContains(inner, outer, outer.center)
  {
    assert Sub(outer.center, inner.center) == Zero;
    PositiveProduct(inner.radius, inner.radius);
  }

  lemma AxisOutsideAnnulus(a: Annulus)
    requires 0.0 < a.innerRadius
    ensures !AnnulusContains(a, a.origin)
  {
    OffsetOnAxis(a);
    InsideHole(a, a.origin);
  }

  /** A point whose radial offset from the axis vanishes lies in the hole. */
  lemma InsideHole(a: Annulus, p: Vec3)
    requires RadialOffset(a.origin, a.dir, p) == Zero && 0.0 < a.innerRadius
    ensures !AnnulusContains(a, p)
  {
    assert Dot(Zero, Zero) == 0.0;
    ZeroBelowSquare(Dot(Zero, Zero), a.innerRadius);
  }

  lemma ZeroBelowSquare(d: real, r: real)
    requires d == 0.0 && 0.0 < r
    ensures d < r * r
  {
    calc {
      d;
    ==
      0.0;
    < { PositiveProduct(r, r); }
      r * r;
    }
  }

  /** A point of the axis is its own foot on the axis. */
  lemma OffsetOnAxis(a: Annulus)
    ensures RadialOffset(a.origin, a.dir, a.origin) == Zero
  {
    assert Sub(a.origin, a.origin) == Zero;
    assert Dot(Zero, a.dir) == 0.0;
    assert Scale(a.dir, 0.0) == Zero;
  }

  lemma CenterInsideSphere(b: Sphere)
    requires 0.0 <= b.radius
    ensures SphereContains(b, b.center)
  {
    assert Sub(b.center, b.center) == Zero;
    MulLeft(0.0, b.radius, b.radius);
  }

  /** The point halfway between a cylinder's end disks. */
  function Midpoint(c: Cylinder): Vec3
  {
    Add(c.origin, Scale(c.dir, c.length / 2.0))
  }

  lemma MidpointInside(c: Cylinder)
    requires Cylinders.WellFormed(c) && 0.0 <= c.radius
    ensures CylinderContains(c, Midpoint(c))
  {
    var h := c.length / 2.0;
    var v := Sub(Midpoint(c), c.origin);
    assert v == Scale(c.dir, h);
    assert Dot(v, c.dir) == h * Dot(c.dir, c.dir);
    assert Dot(v, v) == h * h * Dot(c.dir, c.dir);
    CylinderContainsRadius(c, Midpoint(c));
    MulLeft(0.0, c.radius, c.radius);
  }

  /** `Shell._contains`: inside the outer sphere and not inside the inner one. */
  predicate ShellContains(inner: Sphere, outer: Sphere, p: Vec3)
  {
    SphereContains(outer, p) && !SphereContains(inner, p)
  }

  /**
   * For concentric spheres a shell holds exactly the points whose squared
   * distance from the center is above the inner radius squared and at most
   * the outer radius squared: the inner surface belongs to the hole.
   */
  lemma ShellContainsDistance(inner: Sphere, outer: Sphere, p: Vec3)
    requires inner.center == outer.center
    ensures var v := Sub(p, outer.center);
      ShellContains(inner, outer, p) <==>
        inner.radius * inner.radius < Dot(v, v) <= outer.radius * outer.radius
  {
  }

  /**
   * The crossing length of a ray through the shield, by the corrected
   * routine of its solid: the slab, sphere, shell, box, annulus and
   * cylinder crossings without the boundary defects that the as-written members exhibit.
   * The sphere, shell and box routines can still raise; the slab, annulus
   * and cylinder ones measure the overlap of the ray with the solid, where
   * the routines as written can raise or overrun the ray.
   */
  function CrossingLength(m: Math, ray: RayState, s: Shield): Result<real>
    requires Boxes.WellSigned(ray)
  {
    match s.body
    case XSlab(xStart, xEnd) => Ok(Slabs.SlabCrossing(ray, xStart, xEnd))
    case Ball(sphere) => Spheres.SphereChord(m, ray, sphere)
    case Shell(inner, outer, _) => Spheres.ShellCrossing(m, ray, inner, outer)
    case Cuboid(box) => Boxes.BoxCrossing(m, ray, box)
    case Ring(annulus) => Ok(Annuli.AnnulusCrossing(m, ray, annulus))
    case Can(cylinder) => Ok(Cylinders.CylinderCrossing(m, ray, cylinder))
  }

  /** A ray built from two points has sign flags 0 or 1 on all three axes. */
  lemma RayOfWellSigned(m: Math, start: Vec3, end: Vec3)
    ensures Boxes.WellSigned(RayOf(m, start, end))
  {
    forall i | 0 <= i < 3
      ensures RayOf(m, start, end).sign[i] == 0 || RayOf(m, start, end).sign[i] == 1
    {
      SignMatchesDirection(m, start, end, i);
    }
  }

  /** A shell's spheres share a center and the inner one is no larger. */
  predicate Concentric(s: Shield)
  {
    s.body.Shell? ==>
      s.body.inner.center == s.body.outer.center && 0.0 <= s.body.inner.radius <= s.body.outer.radius
  }

  /**
   * Through every solid, a regular ray crosses a length between 0 and the
   * ray's length; only the box routine may still raise, and for a shell the
   * length is the outer chord less the inner one.
   */
  lemma CrossingWithinRay(m: Math, ray: RayState, s: Shield)
    requires m.SqrtExact() && Regular(ray) && Boxes.WellSigned(ray) && Concentric(s)
    ensures !s.body.Cuboid? ==> CrossingLength(m, ray, s).Ok?
    ensures CrossingLength(m, ray, s).Ok? ==> 0.0 <= CrossingLength(m, ray, s).value <= ray.length
    ensures s.body.Shell? ==> (CrossingLength(m, ray, s).value ==
      Spheres.SphereChord(m, ray, s.body.outer).value - Spheres.SphereChord(m, ray, s.body.inner).value)
  {
    RegularLength(ray);
    match s.body
    case XSlab(_, _) =>
    case Ball(sphere) =>
      Spheres.SphereChordIsOverlap(m, ray, sphere);
    case Shell(inner, outer, _) =>
      Spheres.ShellCrossingDifference(m, ray, inner, outer);
    case Cuboid(box) =>
      SquaresOfExact(m);
      Boxes.BoxCrossingBounded(m, ray, box);
    case Ring(annulus) =>
    case Can(cylinder) =>
  }

  lemma RegularLength(ray: RayState)
    requires Regular(ray)
    ensures 0.0 <= ray.length
  {
  }

  /**
   * The material whose density and coefficients give the shield's mean
   * free paths: a shell uses its outer sphere's.
   */
  function MfpMaterial(s: Shield): Material
  {
    if s.body.Shell? then s.body.outerMaterial else s.material
  }

  /**
   * `get_crossing_mfp`: a non-number energy raises before anything is
   * measured; otherwise the crossing length (which may raise) is turned
   * into mean free paths by the material.  A ray that misses the shield
   * gives 0 whatever the energy, a ray that crosses it gives length times
   * density times attenuation, and raises when the energy is outside the
   * material's table.
   */
  function CrossingMfp(m: Math, ray: RayState, s: Shield, energy: Value): (r: Result<real>)
    requires Boxes.WellSigned(ray) && MfpMaterial(s).Valid()
    reads MfpMaterial(s)
    ensures !IsNumber(energy) ==> r == Err(ValueError("Invalid photon energy"))
    ensures IsNumber(energy) && CrossingLength(m, ray, s).Err? ==> r == CrossingLength(m, ray, s)
    ensures IsNumber(energy) && CrossingLength(m, ray, s) == Ok(0.0) ==> r == Ok(0.0)
    ensures IsNumber(energy) && CrossingLength(m, ray, s).Ok? ==>
      r == MfpMaterial(s).Mfp(m, energy, Float(CrossingLength(m, ray, s).value))
  {
    if !IsNumber(energy) then Err(ValueError("Invalid photon energy"))
    else
      var d :- CrossingLength(m, ray, s);
      MfpMaterial(s).Mfp(m, energy, Float(d))
  }

  /**
   * Along a regular ray the mean free paths of a shield are never negative
   * and never more than those of the whole ray length in the same material.
   */
  lemma CrossingMfpBounded(m: Math, ray: RayState, s: Shield, energy: real)
    requires m.SqrtExact() && m.LogInverse() && Regular(ray) && Boxes.WellSigned(ray) && Concentric(s)
    requires MfpMaterial(s).Valid() && MfpMaterial(s).record.atten.Covers(energy)
    requires CrossingLength(m, ray, s).Ok?
    ensures CrossingMfp(m, ray, s, Float(energy)).Ok?
    ensures 0.0 <= CrossingMfp(m, ray, s, Float(energy)).value
    ensures CrossingMfp(m, ray, s, Float(energy)).value <= MfpMaterial(s).Mfp(m, Float(energy), Float(ray.length)).value
  {
    CrossingWithinRay(m, ray, s);
    var d := CrossingLength(m, ray, s).value;
    var mat := MfpMaterial(s);
    mat.MfpNonNegative(m, Float(energy), Float(d));
    mat.MfpNonNegative(m, Float(energy), Float(ray.length - d));
    mat.MfpAdditive(m, energy, d, ray.length - d);
    assert d + (ray.length - d) == ray.length;
  }

  /**
   * `Shield.__init__`: the material is looked up by name, then a density
   * that is given must be a number, and the material's density setter
   * rejects a negative one.  The density the new shield's material ends
   * up with, or the error raised.
   */
  function InitialDensity(lib: MaterialLibrary, name: Value, density: Value): (r: Result<real>)
    requires LibraryWellFormed(lib)
    ensures !IsString(name) ==> r == Err(ValueError("Material name is not a string"))
    ensures IsString(name) && Lower(name.s) !in lib ==> r == Err(ValueError("Material not found in the Material Library"))
    ensures IsString(name) && Lower(name.s) in lib && !density.NoneValue? && (!IsNumber(density) || AsReal(density) < 0.0) ==>
      r == Err(ValueError("Invalid density"))
    ensures r.Ok? <==>
      IsString(name) && Lower(name.s) in lib && (density.NoneValue? || (IsNumber(density) && 0.0 <= AsReal(density)))
    ensures r.Ok? && density.NoneValue? ==> r.value == lib[Lower(name.s)].density
    ensures r.Ok? && !density.NoneValue? ==> r.value == AsReal(density)
    ensures r.Ok? ==> 0.0 <= r.value
  {
    if !IsString(name) then Err(ValueError("Material name is not a string"))
    else if Lower(name.s) !in lib then Err(ValueError("Material not found in the Material Library"))
    else if density.NoneValue? then Ok(lib[Lower(name.s)].density)
    else if !IsNumber(density) || AsReal(density) < 0.0 then Err(ValueError("Invalid density"))
    else Ok(AsReal(density))
  }

  /**
   * Builds a shield of the given solid: a fresh material of the library
   * entry, with the given density when there is one.
   */
  method Create(lib: MaterialLibrary, name: Value, body: Body, density: Value) returns (r: Result<Shield>)
    requires LibraryWellFormed(lib)
    ensures r.Ok? <==> InitialDensity(lib, name, density).Ok?
    ensures r.Err? ==> r.error == InitialDensity(lib, name, density).error
    ensures r.Ok? ==>
      fresh(r.value.material) && r.value.material.Valid() && r.value.body == body &&
      r.value.material.name == Lower(name.s) && r.value.material.record == lib[Lower(name.s)] &&
      r.value.material.density == InitialDensity(lib, name, density).value
  {
    var mat := Material.Create(lib, name);
    if mat.Err? {
      return Err(mat.error);
    }
    var material := mat.value;
    if !density.NoneValue? {
      if !IsNumber(density) {
        return Err(ValueError("Invalid density"));
      }
      var o := material.SetDensity(density);
      if o.Fail? {
        return Err(o.error);
      }
    }
    return Ok(Shield(material, body));
  }

  /**
   * `Shell.__init__`: the shield checks, then a thickness that is not
   * positive, then an inner body that is not a sphere, raise; the outer
   * sphere shares the inner one's center, is `thickness` larger, and is a
   * sphere shield of its own of the same material and density.
   */
  method NewShell(lib: MaterialLibrary, name: Value, sphere: Shield, thickness: real, density: Value)
    returns (r: Result<Shield>)
    requires LibraryWellFormed(lib)
    ensures InitialDensity(lib, name, density).Err? ==> r == Err(InitialDensity(lib, name, density).error)
    ensures InitialDensity(lib, name, density).Ok? && thickness <= 0.0 ==>
      r == Err(ValueError("Shell has zero or negative thickness"))
    ensures InitialDensity(lib, name, density).Ok? && 0.0 < thickness && !sphere.body.Ball? ==>
      r == Err(ValueError("Shell must contain a spherical shield or source"))
    ensures r.Ok? <==> InitialDensity(lib, name, density).Ok? && 0.0 < thickness && sphere.body.Ball?
    ensures r.Ok? ==>
      var inner := sphere.body.sphere;
      && r.value.body.Shell?
      && r.value.body.inner == inner
      && r.value.body.outer == Sphere(inner.center, inner.radius + thickness)
      && fresh(r.value.material) && fresh(r.value.body.outerMaterial)
      && r.value.material != r.value.body.outerMaterial
      && r.value.material.Valid() && r.value.body.outerMaterial.Valid()
      && r.value.material.density == InitialDensity(lib, name, density).value
      && r.value.body.outerMaterial.density == InitialDensity(lib, name, density).value
      && r.value.body.outerMaterial.record == lib[Lower(name.s)]
  {
    var own := Create(lib, name, XSlab(0.0, 0.0), density);
    if own.Err? {
      return own;
    }
    if thickness <= 0.0 {
      return Err(ValueError("Shell has zero or negative thickness"));
    }
    if !sphere.body.Ball? {
      return Err(ValueError("Shell must contain a spherical shield or source"));
    }
    var inner := sphere.body.sphere;
    var outer := Sphere(inner.center, inner.radius + thickness);
    var outerShield := Create(lib, name, Ball(outer), density);
    return Ok(Shield(own.value.material, Shell(inner, outer, outerShield.value.material)));
  }

  /**
   * A shell built around a sphere of non-negative radius is concentric, so
   * every regular ray crosses it by the outer chord less the inner one.
   */
  lemma BuiltShellConcentric(s: Shield, inner: Sphere, thickness: real)
    requires 0.0 <= inner.radius && 0.0 < thickness
    requires s.body.Shell? && s.body.inner == inner && s.body.outer == Sphere(inner.center, inner.radius + thickness)
    ensures Concentric(s)
  {
  }
}
