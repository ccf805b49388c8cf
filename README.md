# ZapMeNot point-kernel shielding, modelled in Dafny

ZapMeNot estimates the gamma-ray exposure rate at a detector point. The
radiation comes from one or more sources, and the estimate uses the
point-kernel method. Each extended source is split into weighted sample
points. For every sample point and every photon energy line:

- the model builds the ray from the point to the detector;
- each shield measures the length of that ray inside it;
- the lengths, weighted by the shields' attenuation coefficients, sum to a
  number of mean free paths;
- a buildup factor from the buildup material's Geometric-Progression fit
  corrects for scattered photons;
- the uncollided flux `S·B·e^(-mfp) / (4π d²)` is summed over the sample
  points;
- the flux is converted to an exposure rate with the air energy-absorption
  coefficient.

The project models this core module by module:

- `Rays` and `Vectors`: the ray between two points, with its length, unit
  direction, inverse direction and direction signs.
- `Geometry`, `Quadratics` and `Crossings`: the shared part of every shield
  test. A crossing is the overlap of the parameter interval where a line is
  inside a body with the ray's `[0, length]`.
- `Slabs`, `Spheres`, `Boxes`, `Annuli` and `Cylinders`: the per-shape
  `get_crossing_length` of the semi-infinite x-slab, the sphere, the
  axis-aligned box, the infinite annulus about an arbitrary axis, the
  x/y/z-aligned annuli and the capped cylinder.
  - Each corrected crossing is proved equal to a geometric reference: the
    overlap of the ray with the body. The rows below say for which rays;
    for the box, `BoxSlabs` proves it for a ray of any direction that does
    not lie in one of the box's face planes.
  - Where the code as written departs from that reference, the
    departure is exhibited separately.
  - The composite operations (`Shields`, `Spectra`, `Sources`, `Engine`)
    are built on the corrected members. "## Left out" names the inputs
    where the program as written gives a different result.
- `Shields`: the shield family and its mean-free-path calculation.
- `Materials` and `Tables`: material records, attenuation and
  energy-absorption coefficients (log-log interpolation) and
  Geometric-Progression buildup factors.
- `Spectra`, `Isotopes` and `Sources`: photon spectra with their grouping
  options, isotope activities and the source family (point, line, box,
  x/y/z-aligned cylinders).
- `Grids`: the source discretisation grids and their weights.
- `Engine`: `Model.calculate_exposure`, including the filler medium and the
  buildup material.
- `Comparators`: the relative-tolerance list and table comparators of the
  material-library validation scripts.

Numbers are exact reals. Transcendental functions are not defined here. They
are fields of a `RealMath.Math` record passed to every member that needs
them: square root, exponential, logarithm, powers, sine and cosine, the
Geometric-Progression `K` function and the Akima interpolants. The facts a
proof needs about them are stated as requirements, for example "`sqrt` is
exact on squares". Python's dynamically typed arguments and the exceptions
the library raises are modelled as values (`PyValues.Value`, and `Result`
with a `ValueError` or `IndexError` message). The library's error paths are
results rather than preconditions, except for the few listed under "## Left
out": an unset source or detector, and a line source, annulus axis or
cylinder of zero length.

## Model

| member | source | states |
|---|---|---|
| Rays.ValidVectorIsNumberList | src/zapmenot/ray.py:116-127 | a value is a valid point exactly when it is a sequence of three numbers; strings and other values are refused |
| Rays.RayOf | src/zapmenot/ray.py:90-114 | the derived fields always carry a three-entry sign vector |
| Rays.RayGeometry | src/zapmenot/ray.py:101-108 | origin is the start; the length is non-negative, squares to \|end - start\|², and is zero exactly for coincident points; a zero-length ray has the zero direction, any other a unit direction; origin + length·dir is the end |
| Rays.SignMatchesDirection | src/zapmenot/ray.py:109-114 | each sign entry is 0 or 1, and it is 1 exactly when that direction component is negative (a zero component gives +inf inverse and sign 0) |
| Rays.ReversedRay | src/zapmenot/ray.py:101-108 | swapping start and end keeps the length and negates the direction |
| Rays.FiniteLengthRay.constructor | src/zapmenot/ray.py:60-62 | a ray built from two checked points stores them and its derived fields agree with them |
| Rays.FiniteLengthRay.Create | src/zapmenot/ray.py:55-62 | succeeds exactly when both points are valid; an invalid start raises "Invalid ray start" before the end is looked at, an invalid end raises "Invalid ray end"; on success the fields are the given points |
| Rays.FiniteLengthRay.SetStart | src/zapmenot/ray.py:70-75 | an invalid value raises "Invalid ray start" and changes nothing; a valid one replaces the start, keeps the end and re-derives the fields |
| Rays.FiniteLengthRay.SetEnd | src/zapmenot/ray.py:83-88 | an invalid value raises "Invalid ray end" and changes nothing; a valid one replaces the end, keeps the start and re-derives the fields |
| Rays.FiniteLengthRay.Regularize | src/zapmenot/ray.py:90-114 | recomputes origin, length, direction and signs from start and end, leaving both points alone |
| Detectors.NewDetector | src/zapmenot/detector.py:48-57 | succeeds exactly when all three coordinates are numbers (any other value raises ValueError); the stored location is (x, y, z) |
| Detectors.DetectorExamples | src/zapmenot/detector.py:48-62 | a detector at (1, 2, 3) stores and reports that location; a string in any coordinate position is refused |
| Isotopes.NormalizeIdempotent | src/zapmenot/isotope.py:72 | lower-then-capitalize applied twice equals applying it once |
| Isotopes.NormalizeIgnoresCase | src/zapmenot/isotope.py:72 | two names that differ only in letter case normalise to the same key |
| Isotopes.CobaltSpellings | src/zapmenot/isotope.py:72 | "CO-60", "Co-60" and "co-60" all normalise to "Co-60" |
| Isotopes.ConvertHalfLife | src/zapmenot/isotope.py:136-152 | succeeds exactly for the seven known units and then multiplies by that unit's seconds (1e-6, 1e-3, 1, 60, 3600, 86400, 31557600); any other unit raises "Half-life units are not recognized" |
| Isotopes.ConvertHalfLifeMonotone | src/zapmenot/isotope.py:136-149 | conversion to seconds keeps the order of half-lives |
| Isotopes.NewIsotope | src/zapmenot/isotope.py:69-88 | a non-string name raises, an unknown normalised name raises "Isotope not found in the Isotope Library"; otherwise the isotope has the normalised name and the record's photons, key progeny and half-life in seconds |
| Geometry.RayOfRegular | src/zapmenot/ray.py:101-108 | every ray built from two points is regular: non-negative length, unit or zero direction, and it runs from start to end |
| Geometry.DistanceAlongRay | src/zapmenot/shield.py:595 | two points of a ray at parameters in [0, length] are \|ta - tb\| apart, so never further apart than the ray is long |
| Geometry.XRay | src/zapmenot/ray.py:101-108 | a ray parallel to the x axis from x = a to x = b has length \|b - a\| and direction (±1, 0, 0) |
| Geometry.ZRay | src/zapmenot/ray.py:101-108 | a ray parallel to the z axis from z = a to z = b has length \|b - a\| and direction (0, 0, ±1) |
| Geometry.DerivedOnXAxis | src/zapmenot/ray.py:109-114 | the direction (±1, 0, 0) has inverse (±1, +inf, +inf) and sign vector [1 if negative else 0, 0, 0] |
| Geometry.LinePlaneCollision | src/zapmenot/shield.py:137-142 | no collision exactly when \|normal·u\| is below 1e-6; otherwise the point reached at the returned parameter lies in the plane |
| Geometry.SphereContainsDistance | src/zapmenot/shield.py:381-384 | a sphere contains exactly the points no further from its center than its radius (the surface included) |
| Geometry.BoxContainsHalfWidths | src/zapmenot/shield.py:609-621 | a box contains exactly the points within half an edge of its center along every axis (all six faces included) |
| Geometry.RadialDistance | src/zapmenot/shield.py:785-787 | the squared radial offset from an axis is the squared distance less the squared axial projection |
| Geometry.AnnulusContainsRadius | src/zapmenot/shield.py:784-791 | an annulus contains exactly the points whose squared distance from the axis lies between the squared radii, both surfaces included |
| Geometry.CylinderContainsRadius | src/zapmenot/shield.py:1112-1120 | a capped cylinder contains exactly the points whose axial position lies in [0, length] and whose radial distance is at most the radius |
| Geometry.OverlapMirror | src/zapmenot/shield.py:255-267 | the overlap of [t0, t1] with [0, length] is unchanged when the ray is walked backwards |
| Sorting.SortPermutes | src/zapmenot/shield.py:765 | `crossings.sort()` keeps every crossing with its multiplicity |
| Sorting.SortSorted | src/zapmenot/shield.py:765 | the sorted crossings are in ascending order |
| Sorting.SortedUnique | src/zapmenot/shield.py:765 | two ascending lists with the same elements are equal, so the sort has exactly one answer |
| Sorting.SortIs | src/zapmenot/shield.py:765 | sorting a list whose ascending arrangement is known yields that arrangement |
| Crossings.WithEndpointsOnSegment | src/zapmenot/shield.py:582-587 | adding the ray ends that lie inside, as written or corrected, keeps every crossing point on the ray |
| Crossings.DistanceBounded | src/zapmenot/shield.py:588-595 | whatever the bookkeeping, a crossing measured between two points on the ray lies in [0, length] |
| Crossings.PointsDistinct | src/zapmenot/shield.py:160-169 | on a ray of positive length, two parameters in [0, length] give the same point exactly when they are equal |
| Crossings.BothOnRay | src/zapmenot/shield.py:160-176 | entry and exit both on the ray: both bookkeepings measure hi - lo |
| Crossings.EntryOnRay | src/zapmenot/shield.py:160-176 | only the entry on the ray: the corrected bookkeeping measures the overlap; as written it raises exactly when the exit root sits at the end of the ray |
| Crossings.ExitOnRay | src/zapmenot/shield.py:160-176 | only the exit on the ray: the corrected bookkeeping measures the overlap; as written it raises exactly when the entry root sits at the start of the ray |
| Crossings.NeitherOnRay | src/zapmenot/shield.py:160-176 | neither root on the ray (a miss, or the ray wholly inside): both bookkeepings measure the overlap, 0 or the whole length |
| Crossings.Bookkeeping | src/zapmenot/shield.py:160-176 | for a convex shield entered at lo and left at hi, the corrected bookkeeping always measures the overlap of [lo, hi] with [0, length]; the written one agrees except in the two boundary cases, where it raises ValueError |
| Quadratics.Factored | src/zapmenot/shield.py:153-159 | with a positive discriminant the low root is below the high root and the quadratic factors as a (t - low)(t - high) |
| Quadratics.RootsAreZeros | src/zapmenot/shield.py:157-159 | both computed roots are zeros of the quadratic |
| Quadratics.SignBetweenRoots | src/zapmenot/shield.py:157-159 | the quadratic is at most zero exactly between its roots, negative exactly strictly between them |
| Quadratics.NoRealRoots | src/zapmenot/shield.py:153-156 | with a negative discriminant the quadratic is positive everywhere: the line never enters |
| Quadratics.DoubleRoot | src/zapmenot/shield.py:153-156 | with a zero discriminant both roots coincide at -b/2a and the quadratic touches zero only there: the tangent case that adds no crossing |
| Quadratics.DotAlongLine | src/zapmenot/shield.py:149-152 | the squared distance along w + d t is the quadratic with a = d·d, b = 2 d·w, c = w·w |
| Slabs.FaceParameter | src/zapmenot/shield.py:233-247 | no hit exactly when \|dir.x\| < 1e-6 (a ray parallel to the faces); otherwise the parameter (x - origin.x) / dir.x at which the ray reaches the face |
| Slabs.Cases | src/zapmenot/shield.py:248-267 | the case analysis with the two boundary comparisons corrected equals the overlap of [min, max] of the face parameters with [0, length], so lies in [0, length] |
| Slabs.CasesAsWrittenOffBoundary | src/zapmenot/shield.py:255-267 | the written comparisons agree with the corrected ones exactly when neither t0 == 0 with t1 > length nor t0 < 0 with t1 == length |
| Slabs.SlabCrossingAsWritten | src/zapmenot/shield.py:221-267 | the crossing as written: 0 for a ray parallel to the faces, otherwise the written case analysis on the two face parameters |
| Slabs.SlabCrossing | src/zapmenot/shield.py:221-267 | the corrected crossing: 0 for a parallel ray, otherwise the overlap of the ray with the slab's parameter interval; always within [0, length] |
| Slabs.SlabCrossingReversed | src/zapmenot/shield.py:221-267 | reversing a ray (end to start) measures the same length through the slab |
| Slabs.SlabCrossingMirrored | src/zapmenot/shield.py:221-267 | a ray walked back from the end of a regular ray in the opposite direction measures the same length |
| Slabs.AsWrittenOverrunsRay | src/zapmenot/shield.py:257-267 | the ray from x = 15 to x = 20 through the slab 10..20 is 5 long, yet as written the crossing is 10; corrected it is 5 |
| Slabs.SlabAlongAxis | src/zapmenot/shield.py:221-267 | a ray along the x axis from 0 to 100 crosses the 10 cm of the slab 10..20, both as written and corrected |
| Slabs.SlabAlongAxisReversed | src/zapmenot/shield.py:221-267 | so does the same ray walked from 100 back to 0 |
| Spheres.SphereQuadraticMeaning | src/zapmenot/shield.py:149-152 | the quadratic's value at t is the squared distance of the ray's point from the center less the squared radius |
| Spheres.OnRay | src/zapmenot/shield.py:161-163 | the kept roots are at most as many as the candidates and all lie in [0, length] |
| Spheres.HitsOnRay | src/zapmenot/shield.py:160-163 | the loop over [t0, t1] keeps exactly the roots on the ray, in order |
| Spheres.RaySphereIntersection | src/zapmenot/shield.py:145-176 | the corrected intersection routine computes the corrected chord function |
| Spheres.WithContainedEnds | src/zapmenot/shield.py:164-169 | the corrected endpoint step appends the contained ends not already hit |
| Spheres.SphereInterval | src/zapmenot/shield.py:145-159 | with a positive discriminant the points of the ray's line inside the sphere are exactly those between the two roots |
| Spheres.SphereMissed | src/zapmenot/shield.py:153-156 | with a non-positive discriminant no point of the line is strictly inside the sphere: a miss or a tangent adds no length |
| Spheres.Bookkeeping | src/zapmenot/shield.py:160-176 | with roots lo < hi, the corrected bookkeeping measures the overlap of [lo, hi] with the ray; the written one does too, except that it raises "Sphere doesn't have 2 crossings" in the two boundary cases |
| Spheres.SphereChordAsWritten | src/zapmenot/shield.py:145-176 | `_ray_sphere_intersection` as written: the discriminant test, the roots kept on the ray, the contained ends appended and the two-crossing check; its behaviour is stated by Spheres.SphereChordAsWrittenCases and Spheres.SphereAsWrittenRaises |
| Spheres.SphereChord | src/zapmenot/shield.py:145-176 | the same routine with a contained end appended only when it is not already a root; Spheres.SphereChordIsOverlap states that it never raises and measures the overlap of the roots' interval with the ray |
| Spheres.SphereChordIsOverlap | src/zapmenot/shield.py:145-176 | the corrected chord never raises: 0 for a non-positive discriminant, otherwise the overlap of the roots' interval with the ray |
| Spheres.SphereChordAsWrittenCases | src/zapmenot/shield.py:145-176 | the written chord is 0 for a non-positive discriminant, raises exactly when a root falls on an endpoint in a boundary case, and is otherwise the overlap |
| Spheres.SphereAsWrittenRaises | src/zapmenot/shield.py:160-176 | the ray from (10, 0, 0) on the surface of the sphere of radius 10 to its center: as written it raises, corrected it measures 10 |
| Spheres.ShellCrossing | src/zapmenot/shield.py:456-464 | `Shell._get_crossing_length` on the corrected chords: the outer chord's error first, then the inner's, else their difference clamped at 0; stated by Spheres.ShellCrossingLength and Spheres.ShellCrossingDifference |
| Spheres.ShellCrossingLength | src/zapmenot/shield.py:456-464 | computes the shell crossing: outer chord minus inner chord, clamped at 0 |
| Spheres.ShellCrossingDifference | src/zapmenot/shield.py:456-464 | for concentric spheres with the inner one no larger, both chords exist, the inner is no longer than the outer, and the crossing is their plain difference in [0, length] |
| Spheres.NestedRoots | src/zapmenot/shield.py:456-464 | a line meeting the inner sphere meets the outer one over a wider parameter interval |
| Spheres.InnerInsideOuter | src/zapmenot/shield.py:466-475 | a point inside the inner of two concentric spheres is inside the outer one |
| Boxes.BoxIntersect | src/zapmenot/shield.py:623-672 | the three-slab test returns at most two points, each on the ray (at a parameter in [0, length]) |
| Boxes.BoxCrossingAsWritten | src/zapmenot/shield.py:564-595 | `Box._get_crossing_length` as written, on the slab test's points; its behaviour is stated by Boxes.BoxCrossingBounded, BoxSlabs.BoxCrossingIsOverlap, Boxes.AsWrittenRaisesOnFace and BoxSlabs.FacePlaneRay |
| Boxes.BoxCrossing | src/zapmenot/shield.py:564-595 | the same with a contained end added only when it is not already a point; stated by Boxes.BoxCrossingBounded and BoxSlabs.BoxCrossingIsOverlap (the overlap of the inside interval with the ray) |
| Boxes.BoxCrossingBounded | src/zapmenot/shield.py:564-595 | as written or corrected, the length a regular ray crosses inside the box lies in [0, length] |
| Boxes.IntersectFinite | src/zapmenot/shield.py:667-672 | with finite entry and exit parameters the test keeps the points of those that lie on the ray |
| Boxes.ParametersOnXAxis | src/zapmenot/shield.py:640-665 | along the x axis, inside the y and z extents, the y and z slabs are unbounded (invdir +inf) and the parameters are those of the two x faces, nearer first |
| Boxes.FacesOnXAxis | src/zapmenot/shield.py:623-672 | along the x axis the box test finds the two x faces, and each end of the ray is inside exactly when its parameter lies between them |
| Boxes.ForwardCrossing | src/zapmenot/shield.py:564-595 | on a regular ray along +x the corrected crossing is the overlap of the box's x extent with the ray; as written it raises exactly in the boundary cases |
| Boxes.BackwardCrossing | src/zapmenot/shield.py:564-595 | the same along -x, where the face x = high is met first |
| Boxes.CrossingAlongMinusX | src/zapmenot/shield.py:564-595 | the ray from x = a back to x = c < a crosses the overlap of the box's x extent with it |
| Boxes.CrossingFromFaces | src/zapmenot/shield.py:582-595 | when the test finds entry lo < exit hi and each end is inside exactly when its parameter lies between them, the corrected crossing is the overlap of [lo, hi] with the ray; as written it raises exactly when a face is hit at an end of the ray with the other face beyond it |
| Boxes.TestBoxThrough | tests/test_shield.py:212-216 | the ray from (-10, 3, 3) to (20, 3, 3) crosses the 10 cm box centred at (1, 0, 0): 10 |
| Boxes.TestBoxThroughReversed | tests/test_shield.py:218-222 | the same ray reversed: 10 |
| Boxes.TestBoxOutwards | tests/test_shield.py:230-234 | from (3, 3, 3) inside the box out to (21, 3, 3): 3 |
| Boxes.TestBoxOutwardsReversed | tests/test_shield.py:236-239 | from (3, 3, 3) out to (-19, 3, 3): 7 |
| Boxes.TestBoxInwards | tests/test_shield.py:241-245 | from (21, 3, 3) into the box to (3, 3, 3): 3 |
| Boxes.TestBoxInside | tests/test_shield.py:247-251 | a ray from (2, 3, 3) to (-3, 3, 3) wholly inside the box: 5 |
| Boxes.AsWrittenRaisesOnFace | src/zapmenot/shield.py:582-593 | the ray from the face x = -4 inwards to (0, 3, 3): as written it raises "Shield doesn't have 2 crossings", corrected it measures 4 |
| BoxSlabs.RayOfDerived | src/zapmenot/ray.py:109-114 | a ray built from two points carries the inverse direction `1/dir` (+inf for a zero component) and the signs of that inverse, each 0 or 1 |
| BoxSlabs.BoxParametersClip | src/zapmenot/shield.py:640-665 | the test clips the x interval by the y interval, then the result by the z interval, each clip failing when the two intervals are seen to be disjoint |
| BoxSlabs.ClipMeaning | src/zapmenot/shield.py:647-653 | for proper intervals a failed clip means no parameter lies in both; a successful one is proper and holds exactly the parameters in both, and is finite when either input is |
| BoxSlabs.SlabSpanMeaning | src/zapmenot/shield.py:642-645 | off the face planes, one axis's pair of face parameters, ordered by the sign, is a proper interval (finite for a moving coordinate) holding exactly the parameters whose coordinate lies between the two faces |
| BoxSlabs.AxesAreSlabs | src/zapmenot/shield.py:640-656 | for a ray with derived inverse direction and signs, each axis's interval in the test is that axis's slab interval |
| BoxSlabs.ClipAllMeaning | src/zapmenot/shield.py:647-665 | with one finite axis, the two clips fail exactly when no parameter lies in all three intervals, and otherwise give a finite interval holding exactly the common parameters |
| BoxSlabs.ContainsBySpans | src/zapmenot/shield.py:597-621 | `_contains` accepts the ray's point at t exactly when t lies in all three slab intervals |
| BoxSlabs.BoxParametersMeaning | src/zapmenot/shield.py:623-665 | for any non-zero direction off the face planes of a solid box, the test gives nothing exactly when the ray's line misses the box, and otherwise the finite interval of parameters whose points the box contains |
| BoxSlabs.BoxCrossingIsOverlap | src/zapmenot/shield.py:564-672 | for a regular ray of any direction off the face planes, when the box holds exactly the points with parameters in [lo, hi], the corrected crossing is the overlap of [lo, hi] with the ray; as written it agrees except that it raises when a face is hit at an end of the ray with the other face beyond it |
| BoxSlabs.TouchingCrossing | src/zapmenot/shield.py:582-595 | a line that touches the box at a single parameter crosses 0, as written and corrected |
| BoxSlabs.MissedBox | src/zapmenot/shield.py:582-590 | a regular ray whose line misses the box crosses 0, as written and corrected |
| BoxSlabs.FaceRayIntervals | src/zapmenot/shield.py:642-645 | for the ray along y on the face x = -1 of the box with corners (-1,-1,-1) and (1,1,1), the x interval starts at 0 times infinity, NaN |
| BoxSlabs.FaceRayIntersect | src/zapmenot/shield.py:647-672 | the NaN entry is never replaced, so the test finds only the exit point, and neither end of that ray is in the box |
| BoxSlabs.OnePointCrossing | src/zapmenot/shield.py:582-593 | one point found with neither end inside: as written the crossing raises "Shield doesn't have 2 crossings", corrected it is 0 |
| BoxSlabs.FacePlaneRay | src/zapmenot/shield.py:564-672 | on that face-plane ray the box holds the points with parameters in [4, 6], yet the test's interval is (NaN, 6); as written the crossing raises, corrected it is 0 rather than 2 |
| Annuli.NewAnnulus | src/zapmenot/shield.py:703-708 | the constructor keeps the origin and both radii as given (the axis is stored divided by its norm) |
| Annuli.NewAnnulusUnitAxis | src/zapmenot/shield.py:707-708 | for a non-zero axis the stored direction is a unit vector, and scaling it by the axis's norm gives back the axis |
| Annuli.AlignedAnnulusAxis | src/zapmenot/shield.py:915-1005 | the X-, Y- and Z-aligned constructors keep the center and radii and take the coordinate axis itself as the direction |
| Annuli.RadialQuadratic | src/zapmenot/shield.py:815-821 | the quadratic `_intersect` builds for a radius, evaluated at t, is the squared distance of the ray's point from the axis (measured as `_contains` measures it) less the squared radius |
| Annuli.QuadHits | src/zapmenot/shield.py:822-834 | the roots kept for one radius are at most two and all lie in [0, length] |
| Annuli.AnnulusHitsSplit | src/zapmenot/shield.py:813-835 | the hits are the inner cylinder's kept roots followed by the outer cylinder's |
| Annuli.SideCoefficients | src/zapmenot/shield.py:815-820 | computes the quadratic's coefficients from the ray's offset and direction with their axial parts removed |
| Annuli.RootPair | src/zapmenot/shield.py:825-827 | computes the larger root t1 and the smaller root t2 from the square root of the discriminant |
| Annuli.SideIntersect | src/zapmenot/shield.py:815-834 | one pass of the radius loop yields the roots of that radius's quadratic that lie on the ray, the larger first |
| Annuli.Intersect | src/zapmenot/shield.py:793-835 | the loop over the inner and outer radii yields the annulus's hits |
| Annuli.PairedLengthBounds | src/zapmenot/shield.py:761-769 | the pairing raises exactly for a count other than 0, 2 and 4; its result is never negative and, for crossings on the ray, never more than the ray's length |
| Annuli.AnnulusCrossingAsWritten | src/zapmenot/shield.py:736-769 | `InfiniteAnnulus._get_crossing_length` as written: inner then outer roots, contained ends added unless the count is 2 or 4, sorted and paired; stated by Annuli.PairedLengthBounds, Annuli.AsWrittenMeasuresHole and Annuli.AsWrittenRaisesOnSurface |
| Annuli.CrossingLengthAsWritten | src/zapmenot/shield.py:736-769 | the written routine computes the as-written crossing length |
| Annuli.PairUp | src/zapmenot/shield.py:756-769 | after `_intersect`, adding the contained ends when the count is not 2 or 4 and then pairing computes the as-written pairing |
| Annuli.Pair | src/zapmenot/shield.py:761-769 | rejects a count other than 0, 2 or 4, sorts in place and sums the gaps between consecutive pairs |
| Annuli.QuadChord | src/zapmenot/shield.py:813-835 | the length of the ray inside one cylinder lies in [0, length] |
| Annuli.WallLength | src/zapmenot/shield.py:736-791 | the part inside the closed outer cylinder less the part strictly inside the hole lies in [0, length] |
| Annuli.AnnulusCrossing | src/zapmenot/shield.py:736-791 | the corrected crossing length lies in [0, length] |
| Annuli.WallDifference | src/zapmenot/shield.py:736-791 | the ray's part in the hole is contained in its part in the outer cylinder, so the wall length is their plain difference |
| Annuli.AnnulusCrossingDifference | src/zapmenot/shield.py:736-791 | for radii 0 <= inner <= outer, the corrected crossing is the ray's length inside the outer cylinder less its length strictly inside the hole, within [0, length] |
| Annuli.ContainsByValues | src/zapmenot/shield.py:784-791 | the annulus contains the ray's point at t exactly when the outer quadratic is at most zero there and the inner one is not negative |
| Annuli.AnnulusInterval | src/zapmenot/shield.py:784-834 | where the line meets the outer cylinder, the annulus contains exactly the points between the outer roots not strictly between the inner roots |
| Annuli.AnnulusAlongAxis | src/zapmenot/shield.py:784-791 | a ray parallel to the axis is in the wall everywhere or nowhere, as the quadratics' constant terms decide |
| Annuli.AsWrittenFullCrossing | src/zapmenot/shield.py:756-769 | a ray meeting both cylinders with all four crossings on it: the written routine agrees with the corrected length |
| Annuli.AsWrittenMissingHole | src/zapmenot/shield.py:756-769 | a ray crossing the outer cylinder twice and missing the hole: the written routine agrees with the corrected length |
| Annuli.AsWrittenAlongAxis | src/zapmenot/shield.py:756-769 | a ray parallel to the axis: both routines give the whole length when it lies in the wall and 0 otherwise |
| Annuli.AxisEnds | src/zapmenot/shield.py:784-791 | for a ray along x through a z-axis annulus, each end lies in the wall exactly when its distance from the axis lies between the radii |
| Annuli.AxisSideToSide | tests/test_shield.py:301-311 | a ray along x across the whole annulus: both routines measure 2 (outer - inner), 4 cm for radii 2 and 4 |
| Annuli.AxisMissed | tests/test_shield.py:289-293 | a ray moving away from the axis beyond the outer radius: both routines give 0 |
| Annuli.AxisOutsideToWall | tests/test_shield.py:325-329 | from outside into the wall: both routines measure the part past the outer surface, 0.5 cm in the test |
| Annuli.AxisWallToOutside | tests/test_shield.py:331-335 | from the wall out past the outer radius: both routines measure the part inside the outer surface, 0.5 cm in the test |
| Annuli.AxisHoleToWall | tests/test_shield.py:337-341 | from the hole into the wall: both routines measure the part past the inner surface, 0.5 cm in the test |
| Annuli.AxisWallToHole | tests/test_shield.py:343-347 | from the wall into the hole: both routines measure the part before the inner surface, 0.5 cm in the test |
| Annuli.AsWrittenMeasuresHole | src/zapmenot/shield.py:756-769 | a ray from the wall through the hole into the wall: as written it measures the hole, 2·inner, while the corrected length is the wall, length - 2·inner |
| Annuli.AsWrittenRaisesOnSurface | src/zapmenot/shield.py:756-764 | a ray from the outer surface toward the axis, ending in the wall: as written it raises "Shield doesn't have valid crossings", while the whole ray lies in the wall |
| Cylinders.NewCylinderWellFormed | src/zapmenot/shield.py:1033-1038 | for distinct ends the cylinder is well formed: it keeps both ends and the radius, its length squared is the squared distance between the ends, and its direction is the unit vector from start to end |
| Cylinders.AlignedCylinderFields | src/zapmenot/shield.py:1197-1300 | an aligned cylinder runs from center - length/2 to center + length/2 along its coordinate axis, is `length` long, keeps the radius and takes the axis as direction (the fields tests/test_shield.py:583-588 reads) |
| Cylinders.SideHits | src/zapmenot/shield.py:1144-1168 | there are at most two side hits |
| Cylinders.CapHit | src/zapmenot/shield.py:1170-1177 | a disk contributes at most one hit |
| Cylinders.CylinderHits | src/zapmenot/shield.py:1122-1178 | `_intersect` returns at most four points |
| Cylinders.SideIntersect | src/zapmenot/shield.py:1142-1168 | the side quadratic, its roots when the discriminant is positive, and the loop over them compute the side hits |
| Cylinders.KeepSideRoots | src/zapmenot/shield.py:1159-1168 | the loop keeps, in order, each root on the ray whose point lies at or past the start plane and before the end plane |
| Cylinders.CapIntersect | src/zapmenot/shield.py:1170-1177 | the loop over the start and end disks computes their hits in that order |
| Cylinders.CapStep | src/zapmenot/shield.py:1171-1177 | one pass keeps the collision with the disk's plane when it lies on the ray and strictly inside the rim |
| Cylinders.Intersect | src/zapmenot/shield.py:1122-1178 | computes the side hits followed by the cap hits |
| Cylinders.CrossingLength | src/zapmenot/shield.py:1066-1098 | computes the as-written crossing length: contained ends are added when the count is not two, no points give 0, a count other than two raises "Shield doesn't have 2 crossings", two points give their distance |
| Cylinders.HitsOnSegment | src/zapmenot/shield.py:1159-1177 | every point `_intersect` returns lies on the ray between its ends |
| Cylinders.CrossingBounded | src/zapmenot/shield.py:1066-1098 | for a regular ray, a length the written routine returns lies in [0, length] |
| Cylinders.HitsContained | src/zapmenot/shield.py:1112-1177 | every point `_intersect` returns lies on the ray and is accepted by `_contains` |
| Cylinders.TangentAddsNothing | src/zapmenot/shield.py:1150-1151 | when the discriminant is not positive there are no side hits, and then the line never gets strictly inside the side surface |
| Cylinders.CylinderSpanHas | src/zapmenot/shield.py:1112-1120 | the parameter span holds t exactly when `_contains` accepts the ray's point at t |
| Cylinders.CylinderCrossingAsWritten | src/zapmenot/shield.py:1066-1098 | `CappedCylinder._get_crossing_length` as written, on the side and cap hits; stated by Cylinders.CrossingLength, Cylinders.CrossingBounded and CylinderExamples.RimRaises |
| Cylinders.CylinderCrossing | src/zapmenot/shield.py:1066-1098 | the corrected crossing length lies in [0, length] |
| Cylinders.CylinderCrossingMeasuresContained | src/zapmenot/shield.py:1066-1120 | the corrected crossing measures the parameters in [0, length] whose points `_contains` accepts; that set is an interval, and a ray wholly inside gives its whole length |
| CylinderExamples.CrossingAcross | src/zapmenot/shield.py:1066-1098 | a ray (-20,0,0) to (20,0,0) across a z cylinder of radius 10: both routines measure the diameter, 20 |
| CylinderExamples.CrossingEndToEnd | tests/test_shield.py:590-593 | a ray along the axis from z = -60 to 60 through the cylinder from -50 to 50: both routines measure its length, 100 |
| CylinderExamples.RimRaises | src/zapmenot/shield.py:1066-1098 | a ray (-11,0,-3) to (9,0,12) that leaves through the rim of a cylinder from (0,0,0) to (0,0,9) of radius 5: as written it raises "Shield doesn't have 2 crossings", while the corrected length is 12.5 |
| Materials.Lookup | src/zapmenot/material.py:185-194 | a non-number energy raises "Invalid energy", an energy outside the table raises "Photon energy is out of range", every covered energy gives a value, and that value is positive |
| Materials.LookupAtKnot | src/zapmenot/material.py:192-194 | at a tabulated energy the lookup returns the tabulated coefficient |
| Materials.LookupOnSegment | src/zapmenot/material.py:192-194 | between two neighbouring tabulated energies the coefficient is 10 raised to the line through the two knots in log-log space |
| Materials.LookupBetweenKnots | src/zapmenot/material.py:188-194 | between two neighbouring tabulated energies the coefficient lies between their two coefficients |
| Materials.ToMfps | src/zapmenot/material.py:259-262 | the conversion succeeds exactly for a number (giving a scalar) or a flat list of numbers (giving the array of those values), and otherwise raises "mfps have invalid array structure" |
| Materials.CheckBuildupArguments | src/zapmenot/material.py:250-270 | the checks of `get_buildup_factor` in their order: no G-P data, a formula that is not a string, a formula other than "GP" in any case, a non-number energy, each with its message; success exactly when all checks pass, the array is non-empty with no negative mfp and the energy lies within the G-P table |
| Materials.ClampMfp | src/zapmenot/material.py:325-326 | the clamped mfp lies in [0, 80]; it is the mfp itself inside that range, 80 above it and 0 below it |
| Materials.BuildupAtZero | src/zapmenot/material.py:328-360 | at 0 mfp the buildup factor is 1 |
| Materials.BuildupWithUnitK | src/zapmenot/material.py:358 | where K is 1 the buildup factor is the linear 1 + (b - 1) mfp |
| Materials.BuildupClamped | src/zapmenot/material.py:325-326 | every mfp above 80 gives the factor at 80 and every negative mfp the factor at 0 |
| Materials.BuildupSpec | src/zapmenot/material.py:320-365 | a scalar gives a scalar, an array an array of the same length |
| Materials.ClampInPlace | src/zapmenot/material.py:325-326 | each entry of the array becomes its clamped old value |
| Materials.KValues | src/zapmenot/material.py:328-355 | the K array is new, as long as the mfps, and holds each entry's K value (the K formula for a positive mfp, 0 otherwise) |
| Materials.Answers | src/zapmenot/material.py:357-360 | the answers array is new, as long as the mfps, and holds each entry's buildup factor: linear where K is 1, the geometric progression elsewhere |
| Materials.GP | src/zapmenot/material.py:282-365 | `_GP` computes the factor of each clamped mfp and unwraps a scalar again |
| Materials.EnergyAbsorption | src/zapmenot/material.py:214-223 | a non-number energy raises "Invalid energy"; a material without an absorption table fails with an IndexError; otherwise it is the log-log lookup in that table |
| Materials.Material.constructor | src/zapmenot/material.py:82-122 | the object keeps the material's name, its library record and the record's density |
| Materials.Material.Create | src/zapmenot/material.py:60-79 | a name that is not a string raises "Material name is not a string"; a lower-cased name missing from the library raises "Material not found in the Material Library"; otherwise a new material holds that record and its density |
| Materials.Material.SetDensity | src/zapmenot/material.py:134-140 | a non-negative number becomes the density; anything else raises "Invalid density" and leaves the density unchanged |
| Materials.Material.MassAttenCoeff | src/zapmenot/material.py:167-194 | succeeds exactly for a number inside the attenuation table, and is the lookup in that table |
| Materials.Material.MassEnergyAbsCoeff | src/zapmenot/material.py:196-223 | is the lookup in the energy-absorption table, with the same errors |
| Materials.Material.Mfp | src/zapmenot/material.py:157-165 | a non-number energy raises "Invalid energy"; a non-number or negative distance raises "Invalid distance"; distance 0 gives 0 with no range check; otherwise success exactly for a covered energy, and then distance times density times the attenuation coefficient |
| Materials.Material.MfpNonNegative | src/zapmenot/material.py:157-165 | a computed mean free path is never negative |
| Materials.Material.MfpAdditive | src/zapmenot/material.py:162-165 | mean free paths add over consecutive stretches of the same material |
| Materials.Material.BuildupFactor | src/zapmenot/material.py:225-279 | succeeds exactly when the argument checks pass, raising their error otherwise, and then is `_GP` of the checked mfps at the coefficients interpolated at the energy |
| Tables.InterpAtKnot | src/zapmenot/material.py:192-194 | the piecewise-linear interpolation over strictly increasing knots (numpy's `interp`) returns the tabulated value at a knot |
| Tables.InterpOnSegment | src/zapmenot/material.py:192-194 | between two neighbouring knots the interpolation is the line through them |
| Tables.LerpBetween | src/zapmenot/material.py:192-194 | on a segment the line stays between the values at its two ends |
| Tables.MapAll | src/zapmenot/material.py:193-194 | the elementwise map (`numpy.log10` of a table) keeps the length and maps each entry |
| Shields.HollowExcludesCenter | src/zapmenot/shield.py:431-434 | `is_hollow` holds exactly for shells and annuli, whose own center lies outside them when the inner radius is positive |
| Shields.ShellContainsDistance | src/zapmenot/shield.py:466-475 | a concentric shell holds exactly the points whose squared distance from the center is above the inner radius squared and at most the outer radius squared |
| Shields.RayOfWellSigned | src/zapmenot/ray.py:109-114 | a ray built from two points has a sign flag of 0 or 1 on every axis |
| Shields.CrossingLength | src/zapmenot/shield.py:68-79 | the crossing length through a shield by the corrected routine of its solid; stated by Shields.CrossingWithinRay (in [0, length], only the box may raise) |
| Shields.CrossingWithinRay | src/zapmenot/shield.py:68-79 | through every kind of shield a regular ray crosses a length in [0, length]; only the box routine may raise on a regular ray, and a shell's length is the outer chord less the inner one |
| Shields.CrossingMfp | src/zapmenot/shield.py:82-98 | a non-number energy raises "Invalid photon energy"; an error of the crossing length is passed on; a missed shield gives 0; otherwise the material's mean free paths over the crossing length |
| Shields.CrossingMfpBounded | src/zapmenot/shield.py:82-98 | along a regular ray a shield's mean free paths are never negative and never more than those of the whole ray length in the same material |
| Shields.InitialDensity | src/zapmenot/shield.py:43-60 | the material's name errors come first, then a given density that is not a number or is negative raises "Invalid density"; otherwise the density is the given one, or the library's when none is given, and never negative |
| Shields.Create | src/zapmenot/shield.py:43-60 | succeeds exactly when the initial density does, raising its error otherwise; the new shield has a fresh material for the library entry, that density and the given solid |
| Shields.NewShell | src/zapmenot/shield.py:404-429 | the shield's errors first, then a thickness that is not positive raises "Shell has zero or negative thickness", then a body that is not a sphere raises "Shell must contain a spherical shield or source"; otherwise the inner sphere is copied and the outer sphere shares its center, is `thickness` larger and has a material of its own |
| Shields.BuiltShellConcentric | src/zapmenot/shield.py:426-429 | a shell built around a sphere of non-negative radius is concentric, with the inner sphere inside the outer |
| Spectra.AddRateFacts | src/zapmenot/source.py:223-227 | adding one line to the energy dictionary keeps its keys distinct, makes the line's energy a key, adds the line's rate to that energy's rate and leaves every other energy's rate unchanged, and adds it to the total |
| Spectra.AccumulateFacts | src/zapmenot/source.py:216-235 | accumulating lines keeps the keys distinct, makes each line's energy a key, adds every line's rate to its energy's rate and adds all the rates to the total |
| Spectra.AccumulateAppend | src/zapmenot/source.py:216-235 | accumulating two lists in turn is accumulating their concatenation, so the isotope pass and the photon pass compose |
| Spectra.SortLinesPerm | src/zapmenot/source.py:240-242 | sorting keeps the lines as a multiset |
| Spectra.SortLinesTotal | src/zapmenot/source.py:240-242 | sorting keeps the total rate |
| Spectra.SortLinesIncreasing | src/zapmenot/source.py:240-242 | the items of a dictionary come out of sorting in strictly increasing energy order |
| Spectra.BinInRange | src/zapmenot/source.py:247-256 | with a positive step every energy from the lowest to the highest falls in one of the bins 1 to 30 |
| Spectra.FlatEdges | src/zapmenot/source.py:249-256 | with a zero step every bin edge is the one energy, so `digitize` places it past all of them |
| Spectra.SingleEnergyVanishes | src/zapmenot/source.py:243-272 | as written, grouping lines that all share one energy gives an empty spectrum |
| Spectra.SingleLineExample | src/zapmenot/source.py:243-272 | 100 photons/s at 1 MeV, grouped: empty as written, kept as the one line by the correction |
| Spectra.BinSigns | src/zapmenot/source.py:260-267 | with positive energies and rates, a bin's rate and its weighted energy are non-negative and each is zero exactly when the other is |
| Spectra.BinsPartition | src/zapmenot/source.py:260-267 | when every line falls in bins 1 to 30, the bins' rates add up to the total |
| Spectra.KeptRows | src/zapmenot/source.py:260-272 | with positive lines the rows kept after dropping zero rows carry the rate of all the bins, with at most one row per bin and every kept row positive |
| Spectra.GroupLinesAsWritten | src/zapmenot/source.py:243-272 | the grouping as written fails exactly on an empty list; Spectra.SingleEnergyVanishes states that one distinct energy gives an empty result |
| Spectra.GroupLines | src/zapmenot/source.py:243-272 | the corrected grouping fails exactly on an empty list and keeps a single energy as its own group; Spectra.GroupingKeepsTotal states that it keeps the total in at most 30 positive groups |
| Spectra.GroupingKeepsTotal | src/zapmenot/source.py:243-272 | for increasing positive lines, the corrected grouping succeeds, keeps the total emission rate, gives at most 30 groups (or the one-energy list unchanged) and only positive groups |
| Spectra.IsotopeLines | src/zapmenot/source.py:218-227 | an isotope without photons contributes nothing; otherwise one line per photon, at its energy with rate intensity times activity |
| Spectra.ProgenyOf | src/zapmenot/source.py:209-212 | an isotope without key progeny contributes nothing; otherwise one entry per daughter at the parent's activity times the daughter's ratio |
| Spectra.MergedFacts | src/zapmenot/source.py:216-242 | ungrouped, the spectrum has one line per distinct energy of the isotope lines and the photons, in increasing energy order, each with the summed rate of its energy, so the total rate is kept |
| Spectra.Spectrum | src/zapmenot/source.py:188-273 | the source's spectrum: progeny entries when asked, the isotope lines and photons merged and sorted, then grouped under the option; stated by Spectra.SpectrumFacts and Spectra.MergedFacts |
| Spectra.SpectrumFacts | src/zapmenot/source.py:188-273 | an ungrouped spectrum is the merged spectrum of the isotope lines (with key progeny when asked) and the photons; a grouped one of positive lines keeps the merged total in at most 30 groups; grouping an empty list raises IndexError |
| Grids.UniformWeightsSum | src/zapmenot/source.py:353-362 | the uniform weights are `count` equal shares of 1 / count and sum to 1 |
| Grids.Weights | src/zapmenot/source.py:670-679 | with no counts the weights fail, since a list cannot be repeated a float number of times; otherwise there is one weight per point of the product grid and they sum to 1 |
| Grids.CellsInside | src/zapmenot/source.py:694-701 | every cell midpoint lies in [lo, lo + width], strictly inside when the width is positive |
| Grids.SingleCell | src/zapmenot/source.py:694-695 | one cell is its own midpoint, lo + width / 2 |
| Grids.GridLength | src/zapmenot/source.py:947-958 | the nested loops give one point per combination of nodes |
| Grids.GridIndex | src/zapmenot/source.py:947-958 | the point of nodes i, j, k sits at the row-major index (i·nb + j)·nc + k: the innermost dimension varies fastest |
| Grids.GridPoints | src/zapmenot/source.py:947-958 | every point of the grid is the placement of some combination of nodes |
| Grids.BuildGrid | src/zapmenot/source.py:947-958 | the three nested loops build the product grid |
| Grids.PlaneLoop | src/zapmenot/source.py:951-958 | the middle loop appends the points of one outer node, second node by second node |
| Grids.ColumnLoop | src/zapmenot/source.py:953-958 | the innermost loop appends the points of one outer and one middle node |
| Grids.BoxPoints | src/zapmenot/source.py:681-703 | a count list whose length is not three raises "Source Points per Dimension needs three entries"; otherwise the box grid of cell midpoints |
| Grids.BoxGridInside | src/zapmenot/source.py:694-702 | a box of non-negative dimensions holds all nx·ny·nz of its grid points |
| Grids.BoxGridIndex | src/zapmenot/source.py:696-702 | the point of cells i, j, k is that cell's midpoint, at the row-major index (i·ny + j)·nz + k |
| Grids.BoxGridCenter | src/zapmenot/source.py:694-702 | one point per dimension gives the box's center alone |
| Grids.Spacings | src/zapmenot/source.py:372-376 | there are n spacings |
| Grids.SpacingsAreCells | src/zapmenot/source.py:372-376 | the spacings are the midpoints of n equal cells of the line, (i + 1/2)·length / n |
| Grids.LinePoints | src/zapmenot/source.py:364-381 | no counts raises IndexError; otherwise one point per spacing, at that distance along the unit direction from the start |
| Grids.LinePointsOnSegment | src/zapmenot/source.py:372-380 | each line point is start + (end - start)·f with 0 < f < 1, so it lies strictly inside the segment |
| Grids.RadialNodes | src/zapmenot/source.py:923-933 | there is one radial node per ring |
| Grids.RadialNodeLoop | src/zapmenot/source.py:923-933 | the ring loop computes each new outer radius from the running area and each node as the mean of two radii |
| Grids.NodeLoop | src/zapmenot/source.py:935-945 | the angle and length loops append start + i·increment for i from 0 to n - 1 |
| Grids.GenericCylinderPoints | src/zapmenot/source.py:903-959 | computes the node lists and then the nested loops' grid of the generic cylinder |
| Grids.RingRadiusSquare | src/zapmenot/source.py:924-930 | the k-th ring radius is the equal-area radius: non-negative, with square k / n of the radius squared |
| Grids.OuterRingRadius | src/zapmenot/source.py:924-933 | the outer radius of the last ring is the cylinder's radius |
| Grids.RingRadiusMonotone | src/zapmenot/source.py:929-933 | ring radii grow with the number of rings |
| Grids.RadialNodeInside | src/zapmenot/source.py:929-933 | each radial node lies between the inner and outer radius of its ring, so within the cylinder's radius |
| Grids.CylinderGridCount | src/zapmenot/source.py:947-958 | the generic cylinder grid has nr·nt·nz points |
| Grids.PlacedAlongAxis | src/zapmenot/source.py:827-830 | placing a generic point on an axis turns its z into the coordinate along that axis and keeps its squared distance from the axis |
| Grids.AlignedCylinderPoints | src/zapmenot/source.py:810-833 | a count list whose length is not three raises "Source Points per Dimension needs three entries" |
| Grids.CylinderPoints | src/zapmenot/source.py:877-900 | computes the aligned cylinder source's points: the generic grid rotated onto the axis and shifted to the cylinder's middle |
| Grids.ZCylinderPointsAsWritten | src/zapmenot/source.py:748-767 | the Z-aligned cylinder's points as written, where `list += array` appends three scalars; stated by Grids.ZCylinderShiftLost |
| Grids.ZCylinderShiftLost | src/zapmenot/source.py:765 | as written, the Z-aligned source yields the unshifted generic points followed by the middle's three coordinates as bare numbers; for a cylinder whose middle is not the origin no point is where it should be |
| Grids.ZCylinderPointsShifted | src/zapmenot/source.py:748-766 | the corrected Z-aligned points are nr·nt·nz generic points, each shifted by the cylinder's middle |
| Sources.LineBodyOf | src/zapmenot/source.py:336-339 | a line source keeps its ends and its length is the distance between them; a positive length gives a unit direction |
| Sources.DefaultCounts | src/zapmenot/source.py:77 | a new source starts with positive counts ([10, 10, 10], or [10] for a line source) |
| Sources.GroupOptionOf | src/zapmenot/source.py:93-100 | exactly the three option strings name a grouping option, each its own |
| Sources.CountItems | src/zapmenot/source.py:303-306 | an int becomes a one-element list, any other iterable value its elements; anything else fails |
| Sources.PointsOf | src/zapmenot/source.py:300-314 | succeeds exactly when every item is an int and positive; a non-int raises "Number of Source Points per Dimension is/are non-integer" first, a non-positive int then raises "Source Points per Dimension must be positive integers"; the stored counts are the items, with True read as 1 |
| Sources.PointsRoundTrip | src/zapmenot/source.py:300-314 | every list of positive ints is stored unchanged, and a positive int as a one-element list |
| Sources.BodyPoints | src/zapmenot/source.py:364-703 | a point source has its one point whatever the counts; a box or cylinder source without three counts raises "Source Points per Dimension needs three entries"; a line source fails exactly without counts |
| Sources.WeightsMatchPoints | src/zapmenot/source.py:353-362 | whenever the counts describe the body there is one weight per point, and the weights sum to 1 |
| Sources.BodyShield | src/zapmenot/source.py:383-415 | a point or line source is no shield; every other body is a shield of the source's own material |
| Sources.SelfShielding | src/zapmenot/source.py:383-415 | a point or line source never shields (length and mean free paths 0); through any other source body a regular ray crosses a length in [0, length], only a box may raise, and the mean free paths are never negative |
| Sources.Source.constructor | src/zapmenot/source.py:70-81 | a new source has no isotopes, no photons, the default counts for its body, no key progeny and hybrid grouping |
| Sources.Source.AddIsotopeCuries | src/zapmenot/source.py:112-122 | appends the isotope with its activity converted to becquerels (times 3.7E10) and changes nothing else |
| Sources.Source.AddIsotopeBq | src/zapmenot/source.py:124-134 | appends the isotope with its activity in becquerels and changes nothing else |
| Sources.Source.AddPhoton | src/zapmenot/source.py:136-146 | appends the photon to the individual photons and changes nothing else |
| Sources.Source.ListIsotopes | src/zapmenot/source.py:148-156 | returns the isotope entries in the order they were added |
| Sources.Source.ListDiscretePhotons | src/zapmenot/source.py:158-170 | returns only the individually added photons, in the order they were added |
| Sources.Source.SetGrouping | src/zapmenot/source.py:89-100 | one of the three option strings becomes the option; anything else raises "Invalid grouping option" and leaves it unchanged; nothing else changes |
| Sources.Source.SetIncludeKeyProgeny | src/zapmenot/source.py:107-110 | stores whatever value it is given and changes nothing else |
| Sources.Source.SetPointsPerDimension | src/zapmenot/source.py:300-314 | a valid value stores its counts; an invalid one raises its error and changes nothing |
| Sources.Source.SourcePoints | src/zapmenot/source.py:364-703 | computes the body's points from the stored counts |
| PyValues.EqualsTrueIsOne | zap_me_not/source.py:156 | a value equals True in Python exactly when it is a number worth 1 (True, 1 or 1.0) |
| Sources.Source.PhotonSourceList | src/zapmenot/source.py:188-273 | computes the spectrum of the stored isotopes and photons, with key progeny only when the flag is exactly True, under the stored grouping option |
| Sources.ProgenyLoop | src/zapmenot/source.py:206-212 | computes the key progeny entries of the isotope list, failing as the first failing isotope lookup does |
| Sources.DaughterLoop | src/zapmenot/source.py:210-212 | appends each daughter at the parent's activity times its ratio |
| Sources.ContributionLoop | src/zapmenot/source.py:216-227 | sums the photons of every isotope entry into the dictionary, failing as the first failing isotope lookup does |
| Sources.PhotonLoop | src/zapmenot/source.py:229-235 | sums the individually added photons into the dictionary |
| Sources.ListsKeepOrder | src/zapmenot/source.py:112-170 | an isotope in curies, one in becquerels and a photon, added in turn, appear in the two lists in the order they were added, and isotopes never appear among the photons |
| Engine.Media | zap_me_not/model.py:154-156 | one medium per entry of the shield list, in order, each that entry's material (density and tables) |
| Engine.FillerMedium | zap_me_not/model.py:161-163 | a medium exactly when a filler is set, and then the filler's |
| Engine.Crossings | zap_me_not/model.py:136-138 | a computed row of the crossing table has one length per entry of the shield list |
| Engine.PathsTo | zap_me_not/model.py:130-138 | a computed crossing table has one row per source point and one column per entry of the shield list |
| Engine.Gaps | zap_me_not/model.py:139 | one gap per source point |
| Engine.CrossingsDefined | zap_me_not/model.py:136-138 | a row of the crossing table exists exactly when every entry's crossing length does |
| Engine.CrossingsEntries | zap_me_not/model.py:136-138 | entry j of a computed row is the crossing length of entry j of the shield list |
| Engine.PathsEntries | zap_me_not/model.py:133-139 | row i belongs to source point i: its distance is the length of the ray from that point to the detector, its row is that ray's crossings, and its gap is the ray's length less their sum |
| Engine.Xsecs | zap_me_not/model.py:153-156 | computed cross sections have one entry per entry of the shield list |
| Engine.GapXsec | zap_me_not/model.py:161-163 | without a filler there is no gap cross section; with one it exists exactly when the filler's table covers the energy |
| Engine.PointMfps | zap_me_not/model.py:158-164 | one mean free path per source point |
| Engine.Buildups | zap_me_not/model.py:166-171 | without a buildup material every factor is 1; computed factors have one entry per source point |
| Engine.LineResultOf | zap_me_not/model.py:146-179 | a line's result carries that line's energy |
| Engine.LineFluxes | zap_me_not/model.py:165-179 | the summed fluxes carry the line's energy |
| Engine.LineResults | zap_me_not/model.py:146-179 | one result per photon line |
| Engine.LineExposures | zap_me_not/model.py:181-185 | one exposure rate per line result |
| Engine.ExposureOf | zap_me_not/model.py:181-190 | a library without air raises "Material not found in the Material Library" |
| Engine.PerPointSpectrum | zap_me_not/source.py:150-207 | the photon list the engine receives: progeny when the flag equals True, rates divided by the product of the counts, sorted and grouped; stated by Engine.PerPoint, Engine.PerPointTotal, Engine.SinglePointSpectrum and Engine.PerPointPhotons |
| Engine.PerPoint | zap_me_not/source.py:184-186 | one line per dictionary entry |
| Engine.Exposure | zap_me_not/model.py:110-190 | an error of the source points is raised first |
| Engine.ExposureOnceThePointsAreKnown | zap_me_not/model.py:129-190 | once the source points are computed, the exposure is the one at those points with the source's per-point photon list, the media of the shield list and the filler's medium |
| Engine.ExposureAt | zap_me_not/model.py:129-190 | an error of the crossing table is raised next, then a source point on the detector |
| Engine.ExposureFrom | zap_me_not/model.py:146-190 | an error of any line's fluxes is raised; otherwise the exposure of the line results |
| Engine.XsecsDefined | zap_me_not/model.py:153-156 | the cross sections exist exactly when every entry's attenuation table covers the energy |
| Engine.XsecsEntries | zap_me_not/model.py:155-156 | entry j is that entry's density times its attenuation coefficient at the energy |
| Engine.WeightedSumZero | zap_me_not/model.py:158-159 | a row of zero crossing lengths has zero mean free paths, whatever the cross sections |
| Engine.WeightedSumNonNegative | zap_me_not/model.py:158-159 | non-negative crossing lengths and cross sections give non-negative mean free paths |
| Engine.UnshieldedFlux | zap_me_not/model.py:158-174 | with no shield in the way and no filler a point has zero mean free paths and its flux is the yield over 4 pi d^2 |
| Engine.NonNegativeMfp | zap_me_not/model.py:158-164 | with non-negative crossings, cross sections and (with a filler) gap and filler cross section, every mean free path is non-negative |
| Engine.NoBuildupTotal | zap_me_not/model.py:166-177 | without a buildup material a line's fluxes never fail and its total flux equals its uncollided flux |
| Engine.LineExposuresAppend | zap_me_not/model.py:182-185 | the exposure rates of two runs of lines side by side are those of their concatenation |
| Engine.ExposureAdditive | zap_me_not/model.py:182-190 | the summed exposure is additive over photon lines |
| Engine.SinglePointSpectrum | zap_me_not/source.py:184-186 | a source of one point receives its spectrum unscaled |
| Engine.PerPointTotal | zap_me_not/source.py:184-186 | the per-point rates add up to the source's total divided by the number of points |
| Engine.CrossingsLoop | zap_me_not/model.py:136-138 | the inner loop computes the row of crossings, failing at the first entry that raises |
| Engine.PathsLoop | zap_me_not/model.py:133-138 | the outer loop computes the crossing table and the ray lengths |
| Engine.XsecsLoop | zap_me_not/model.py:153-156 | the loop computes the cross sections of the shield list |
| Engine.GapXsecStep | zap_me_not/model.py:161-163 | computes the filler's cross section |
| Engine.BuildupStep | zap_me_not/model.py:166-171 | computes the buildup factors |
| Engine.FluxStep | zap_me_not/model.py:172-177 | computes the summed fluxes of one line |
| Engine.LineResultStep | zap_me_not/model.py:147-179 | the body of the photon loop computes the line's result |
| Engine.LineResultsLoop | zap_me_not/model.py:146-179 | the photon loop computes one result per line, failing at the first line that raises |
| Engine.ExposuresLoop | zap_me_not/model.py:181-185 | the loop computes each line's exposure rate with air's absorption coefficient |
| Engine.ExposureStep | zap_me_not/model.py:146-190 | computes the exposure from the line results |
| Engine.ExposureAtStep | zap_me_not/model.py:129-190 | computes the exposure once the source points are known |
| Engine.SumLoop | zap_me_not/model.py:187-189 | the loop computes the sum of the exposure rates |
| Engine.PerPointPhotons | zap_me_not/source.py:184-186 | computes the per-point photon list |
| Engine.Model.constructor | zap_me_not/model.py:38-52 | a new model has no source, no shields, no detector, no filler and no buildup material |
| Engine.Model.SetFillerMaterial | zap_me_not/model.py:54-66 | a bad name raises its error and leaves the filler unchanged; otherwise a new material of that name becomes the filler, with the given density when it is a non-negative number and otherwise the library density, an invalid density raising "Invalid density" after the filler is set |
| Engine.Model.AddSource | zap_me_not/model.py:68-78 | sets the source and also appends it to the shield list; nothing else changes |
| Engine.Model.AddShield | zap_me_not/model.py:80-88 | appends the shield to the shield list; nothing else changes |
| Engine.Model.AddDetector | zap_me_not/model.py:90-98 | sets the one detector, replacing any earlier one; nothing else changes |
| Engine.Model.SetBuildupFactorMaterial | zap_me_not/model.py:100-108 | sets the buildup material; nothing else changes |
| Engine.Model.CalculateExposure | zap_me_not/model.py:110-190 | computes the exposure rate in mR/hr of the model's source, shields, detector, filler and buildup material |
| Comparators.CompareSimpleLists | dataConversion/materialLibraryValidation/buildup.py:67-89 | returns true exactly when the lists have the same length and every pair of entries is equal or differs by less than one millionth relative to the reference entry (or to the candidate entry when the reference is zero) |
| Comparators.Compare2DLists | dataConversion/materialLibraryValidation/buildup.py:92-119 | raises IndexError when the reference has no first row or a row of either table is narrower than it (or the candidate table has fewer rows); otherwise true exactly when every cell agrees |
| Comparators.ListMatchesItself | dataConversion/materialLibraryValidation/buildup.py:76-89 | every list matches itself |
| Comparators.LengthMismatch | dataConversion/materialLibraryValidation/buildup.py:73-75 | lists of different lengths never match |
| Comparators.WithinTolerance | dataConversion/materialLibraryValidation/buildup.py:82-86 | with a non-zero reference entry, agreement means the difference is below one millionth of the reference entry's magnitude |
| Comparators.ZeroReference | dataConversion/materialLibraryValidation/buildup.py:82-86 | a zero reference entry matches only a zero candidate entry |
| Comparators.Asymmetric | dataConversion/materialLibraryValidation/buildup.py:82-86 | the comparison is not symmetric: 1.0000010000001 fails against a reference of 1.0 while 1.0 passes against a reference of 1.0000010000001; the margins (about 1e-13) are far above double rounding |
| Comparators.OneRowTable | dataConversion/materialLibraryValidation/buildup.py:92-119 | a one-row table compares exactly like the two lists of equal length |
| Comparators.TableMatchesItself | dataConversion/materialLibraryValidation/buildup.py:92-119 | a table whose rows are all at least as wide as its first row matches itself |
| Comparators.ExtraRowsIgnored | dataConversion/materialLibraryValidation/buildup.py:98-119 | rows of the candidate table beyond the reference's are never read and do not change the result |
| Comparators.TableFailure | dataConversion/materialLibraryValidation/buildup.py:102-119 | a table comparison fails exactly when some readable cell disagrees |

## Left out

- Reading the YAML material and isotope libraries is not modelled. The libraries are parameters (`MaterialLibrary`, `Isotopes.Library`) holding the records the files would supply.
- Drawing and display are not modelled: the pyvista `draw`/`display` methods and `_projection`.
- Floating-point rounding, IEEE overflow and NaN arithmetic are not modelled; numbers are exact reals. The box slab test keeps IEEE infinities and NaN only for the inverse direction and the slab parameters (`ExtReals`). Signed zeros are not modelled: a zero direction component is taken as +0.0, with inverse +inf and sign 0. numpy gives a component of -0.0 when the ray ends at x = -0.0 and starts at x = 0.0; its inverse is then -inf, though the sign is still 0.
- The transcendental functions are abstract fields of `RealMath.Math`, so results are proved in terms of them and not numerically. This covers `sqrt`, `exp`, `log10`, powers, `sin`, `cos`, the `tanh`/`float_power` form of the Geometric-Progression `K` (`gpK`, including its extrapolation beyond 40 mean free paths) and the Akima interpolants of the buildup coefficients.
- Exception messages built with f-strings are shortened to their fixed text.
- The sphere source and its quadrature helpers `_spherequad` and `_rquad` are not modelled.
- `numpy.linspace` and `numpy.digitize` are modelled only for the uses the core makes of them: evenly spaced grid points and bin placement of photon energies.
- The data-conversion scripts' file input and output are not modelled. The comparators take lists of reals, so converting strings with `float()` is left out, and so are their printed messages.
- Engine.ExposureAt: when a sample point coincides with the detector, the source divides by a zero distance and carries an infinity or NaN into the sum. The model returns a `ValueError` instead.
- Engine.Exposure: a source or detector that was never added (`None`) is a precondition rather than an error result.
- Engine.Exposure: shield and source densities are read once, as `Medium` snapshots of the material objects, at the start of the calculation. The calculation does not change them.
- Engine.PerPointSpectrum: each line's yield is divided by the number of sample points, as zap_me_not/source.py:184-186 does. The src/zapmenot version of the photon list does not divide, and the model follows the zap_me_not code.
- Annuli.AxisSideToSide: the worked annulus cases are proved for rays along the x axis through annuli about the z axis. They are not proved for other axes. The general crossing lemma, Annuli.AnnulusCrossingDifference, covers every axis.
- Engine.Crossings: the ensures states the shape of the result (one entry per shield, errors propagated), and the per-shield values come from the shield lemmas.
- Shields.CrossingLength: dispatches to the corrected crossings (Slabs.SlabCrossing, Spheres.SphereChord, Spheres.ShellCrossing, Boxes.BoxCrossing, Annuli.AnnulusCrossing, Cylinders.CylinderCrossing), not to the as-written ones. The program differs on these inputs. Slab 10 ≤ x ≤ 20 with the ray (15,0,0)→(20,0,0): the program gives 10, the model 5. Sphere of radius 10 with the ray from the surface point (10,0,0) to the centre: the program raises, the model gives 10. Annulus with radii 2 and 4: the ray (-3,0,0)→(3,0,0) gives 4 in the program (the hole), 2 in the model; the ray (4,0,0)→(3,0,0) from the outer surface raises in the program, 1 in the model. A ray through the rim of a capped cylinder raises in the program (Findings), while the model measures it.
- Shields.CrossingWithinRay, Shields.CrossingMfp, Shields.CrossingMfpBounded: are stated about Shields.CrossingLength, so they promise the corrected crossings; on the inputs of the line above, the program raises or returns a longer length instead.
- Spheres.ShellCrossingLength, Spheres.ShellCrossingDifference: the shell is the corrected outer chord less the corrected inner chord. A ray that starts exactly on either sphere and ends inside it makes the program's sphere routine raise, and so the shell raises as well (Spheres.SphereAsWrittenRaises); the model gives the difference of the chords.
- Boxes.BoxCrossingBounded: states only the bounds [0, length]. The exact value on every ray off the face planes is BoxSlabs.BoxCrossingIsOverlap (with BoxSlabs.MissedBox for a miss).
- BoxSlabs.BoxParametersMeaning: requires the ray not to lie in a face plane of the box (BoxSlabs.OffFacePlanes). On such a ray the slab parameter of that face is 0 times infinity, NaN, which no comparison replaces, so the entry point is dropped. BoxSlabs.FacePlaneRay exhibits it: along y on the face x = -1 of the box with corners (-1,-1,-1) and (1,1,1), the program raises "Shield doesn't have 2 crossings". Boxes.BoxCrossing returns 0, not the 2 cm that lie on the face. This case is not corrected in the model.
- Spectra.Spectrum, Spectra.SpectrumFacts: grouping uses the corrected Spectra.GroupLines. With a single distinct energy and the GROUP option, the program's grouped spectrum is empty (Spectra.SingleEnergyVanishes), so its exposure is 0; the model keeps the line.
- Sources.BodyPoints, Sources.Source.SourcePoints, Sources.WeightsMatchPoints, Sources.SelfShielding: a z-aligned cylinder source uses the corrected points, each shifted to the cylinder's middle. The program keeps the points about the origin and appends the middle's three coordinates as scalars (Grids.ZCylinderShiftLost). The self-shielding inherits the corrected crossings of Shields.CrossingLength.
- Sources.Source.PhotonSourceList: follows the corrected grouping of Spectra.Spectrum (see above).
- Engine.Exposure, Engine.ExposureOnceThePointsAreKnown, Engine.PerPointPhotons, Engine.Model.CalculateExposure: built on Sources.BodyPoints, Spectra.Spectrum and Shields.CrossingLength, so they follow the corrected definitions on all the inputs named above. On those inputs the program raises, uses a different crossing length, or gives an exposure of 0 for a single-energy GROUP spectrum. For a z-aligned cylinder source, its point list holds three bare scalars, which are not valid ray starts.
- Engine.Exposure: key progeny is included when the flag equals True in Python's sense (PyValues.EqualsTrue: True, 1 or 1.0), as zap_me_not/source.py:156 tests it. Sources.Source.PhotonSourceList follows src/zapmenot/source.py:206, which tests `is True`, so only True enables progeny there.
- Isotopes.Normalize, Isotopes.NewIsotope, Materials.Material.Create: Python's `lower`, `upper` and `capitalize` map every Unicode letter. Text.Lower, Text.Upper and Text.Capitalize map only the ASCII letters A-Z and a-z. For example, "\u212Ar-85" (with the KELVIN SIGN) becomes "Kr-85" in Python, but the model leaves it unchanged, so that isotope is not found.
- Materials.ToMfps: `numpy.array` also accepts numeric strings such as "1.5" and nested lists of numbers (material.py:260). The model accepts only a number or a flat list of numbers and raises "mfps have invalid array structure" for the rest.
- Sources.LineBodyOf, Annuli.NewAnnulus, Cylinders.NewCylinder: require a line, axis or cylinder of non-zero length. For a zero length, Python divides 0 by 0 and stores a NaN direction rather than raising.

## Findings

| source | as written | input that shows it | evidently intended | confidence | as-written member | corrected member |
|---|---|---|---|---|---|---|
| src/zapmenot/shield.py:257-267 | a ray that ends exactly on the far face of the slab, with its start inside, falls through to `t1 - t0` | slab 10 ≤ x ≤ 20, ray (15,0,0)→(20,0,0): 10 is returned for a ray of length 5 | the part of the ray inside the slab, 5 | not executed | Slabs.AsWrittenOverrunsRay | Slabs.SlabCrossing |
| src/zapmenot/shield.py:160-176 | a ray that starts exactly on the surface of the sphere and ends inside it gives three candidate lengths | sphere of radius 10 at the origin, ray (10,0,0)→(0,0,0): raises "Sphere doesn't have 2 crossings" | the chord inside the sphere, 10 | not executed | Spheres.SphereAsWrittenRaises | Spheres.SphereChordIsOverlap |
| src/zapmenot/shield.py:582-593 | a ray that starts exactly on a face of the box and ends inside it gets three crossing points | box centred at (1,0,0) with sides 10, ray (-4,3,3)→(0,3,3): raises "Shield doesn't have 2 crossings" | the length inside the box, 4 | not executed | Boxes.AsWrittenRaisesOnFace | Boxes.CrossingFromFaces |
| src/zapmenot/shield.py:756-769 | a ray from the wall, through the hole, into the opposite wall meets only the two inner surfaces, so the hole is measured instead of the wall | inner radius 2, outer radius 4 about the z axis, ray (-3,0,0)→(3,0,0): 4 | the length inside the annulus material, 2 | not executed | Annuli.AsWrittenMeasuresHole | Annuli.AnnulusCrossingDifference |
| src/zapmenot/shield.py:756-764 | a ray that starts exactly on the outer surface and ends inside the material gets three crossings | inner radius 2, outer radius 4, ray (4,0,0)→(3,0,0): raises "Shield doesn't have valid crossings" | the length inside the material, 1 | not executed | Annuli.AsWrittenRaisesOnSurface | Annuli.AnnulusCrossingDifference |
| src/zapmenot/shield.py:1066-1098 | a ray through the rim of a capped cylinder that hits one cap and one side gets a crossing count the code refuses | cylinder 0 ≤ z ≤ 9 of radius 5, ray (-11,0,-3)→(9,0,12): raises | the length inside the cylinder, 12.5 | not executed | CylinderExamples.RimRaises | Cylinders.CylinderCrossingMeasuresContained |
| src/zapmenot/source.py:243-272 | with one distinct energy, `linspace` has step 0, every bin boundary equals that energy and `digitize` places the photon past the last bin | `[(1.0, 100.0)]` with the GROUP option: the grouped spectrum is empty | the single line is kept with its full intensity | not executed | Spectra.SingleEnergyVanishes | Spectra.GroupingKeepsTotal |
| src/zapmenot/source.py:760-767 | `source_points += (origin + end)/2` extends the list of points with three numbers instead of shifting every point | any z-aligned cylinder source: the points stay about the origin and three scalars are appended | every point shifted to the cylinder centre | not executed | Grids.ZCylinderShiftLost | Grids.ZCylinderPointsShifted |
