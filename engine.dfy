/**
 * The exposure engine of the point-kernel model: one source, an ordered
 * shield list that also holds the source (its body shields too), one
 * detector, an optional filler material that fills the space the shields
 * leave, and an optional material for the buildup factor.  The exposure
 * rate at the detector sums, over the photon lines and over the source
 * points, the attenuated and built-up point flux, and converts it to mR/hr
 * with the energy absorption of air.
 */
module Engine {
  import opened Wrappers
  import opened PyValues
  import opened RealMath
  import opened Vectors
  import opened Text
  import opened Rays
  import opened Materials
  import opened Shields
  import opened Isotopes
  import opened Spectra
  import opened Grids
  import opened Sources
  import opened Detectors
  import Boxes

  /**
   * Flux (photons/cm^2 s) times energy (MeV) times the mass energy-absorption
   * coefficient of air (cm^2/g) to exposure in R/s, for 33.85 eV per ion pair in air.
   */
  const ConversionFactor: real := 0.00000001835

  /** The error this model raises where the flux at a zero distance would be infinite. */
  const CoincidentPoint: string := "Source point coincides with the detector"

  // ---------------------------------------------------------------------
  // The shield list
  // ---------------------------------------------------------------------

  /** An entry of the shield list: a shield, or the source, whose body shields too. */
  datatype Layer = Wall(shield: Shield) | Emitter(source: Source)

  function LayerMaterial(l: Layer): Material
  {
    match l
    case Wall(s) => s.material
    case Emitter(src) => src.material
  }

  function LayerMaterials(layers: seq<Layer>): set<Material>
  {
    set l | l in layers :: LayerMaterial(l)
  }

  /** Every material of the shield list has well-formed library data. */
  predicate LayersWellFormed(layers: seq<Layer>)
  {
    forall i :: 0 <= i < |layers| ==> LayerMaterial(layers[i]).record.WellFormed()
  }

  /** An optional material (the filler or the buildup material) has well-formed library data. */
  predicate OptionalWellFormed(mat: Option<Material>)
  {
    mat.Some? ==> mat.value.record.WellFormed()
  }

  function Footprint(mat: Option<Material>): set<Material>
  {
    if mat.Some? then {mat.value} else {}
  }

  /** A material as one calculation sees it: its library data and its density at that time. */
  datatype Medium = Medium(record: MaterialRecord, density: real)

  function MediumOf(mat: Material): Medium
    reads mat
  {
    Medium(mat.record, mat.density)
  }

  /** The media of the shield list, in order. */
  function Media(layers: seq<Layer>): (r: seq<Medium>)
    reads LayerMaterials(layers)
    ensures |r| == |layers|
    ensures forall i :: 0 <= i < |layers| ==> r[i] == MediumOf(LayerMaterial(layers[i]))
  {
    if layers == [] then []
    else Media(layers[..|layers| - 1]) + [MediumOf(LayerMaterial(layers[|layers| - 1]))]
  }

  /** The filler's medium, when there is a filler. */
  function FillerMedium(filler: Option<Material>): (r: Option<Medium>)
    reads Footprint(filler)
    ensures r.Some? <==> filler.Some?
    ensures r.Some? ==> r.value == MediumOf(filler.value)
  {
    if filler.Some? then Some(MediumOf(filler.value)) else None
  }

  predicate MediaWellFormed(media: seq<Medium>)
  {
    forall i :: 0 <= i < |media| ==> media[i].record.WellFormed()
  }

  predicate FillerWellFormed(filler: Option<Medium>)
  {
    filler.Some? ==> filler.value.record.WellFormed()
  }

  /** `_get_crossing_length` of a shield-list entry. */
  function LayerCrossing(m: Math, ray: RayState, l: Layer): Result<real>
    requires Boxes.WellSigned(ray)
  {
    match l
    case Wall(s) => CrossingLength(m, ray, s)
    case Emitter(src) => SelfCrossingLength(m, ray, src.body, src.material)
  }

  // ---------------------------------------------------------------------
  // Crossing lengths and distances, one row per source point
  // ---------------------------------------------------------------------

  /** One row of the crossing table: the length of the ray in each entry of the shield list, in order. */
  function Crossings(m: Math, ray: RayState, layers: seq<Layer>): (r: Result<seq<real>>)
    requires Boxes.WellSigned(ray)
    ensures r.Ok? ==> |r.value| == |layers|
  {
    if layers == [] then Ok([])
    else
      var row :- Crossings(m, ray, layers[..|layers| - 1]);
      var c :- LayerCrossing(m, ray, layers[|layers| - 1]);
      Ok(row + [c])
  }

  /** The crossing table and the ray length of every source point. */
  datatype Paths = Paths(crossings: seq<seq<real>>, distances: seq<real>)

  /** The table has one row per distance, each with `n` entries. */
  predicate Fits(p: Paths, n: nat)
  {
    |p.crossings| == |p.distances| && forall i :: 0 <= i < |p.crossings| ==> |p.crossings[i]| == n
  }

  /** No source point lies on the detector. */
  predicate Separated(p: Paths)
  {
    forall i :: 0 <= i < |p.distances| ==> p.distances[i] != 0.0
  }

  /** The rays from every source point to the detector location, through the shield list. */
  function PathsTo(m: Math, points: seq<Vec3>, location: Vec3, layers: seq<Layer>): (r: Result<Paths>)
    ensures r.Ok? ==> |r.value.crossings| == |points| && Fits(r.value, |layers|)
  {
    if points == [] then Ok(Paths([], []))
    else
      var before :- PathsTo(m, points[..|points| - 1], location, layers);
      var ray := RayOf(m, points[|points| - 1], location);
      RayOfWellSigned(m, points[|points| - 1], location);
      var row :- Crossings(m, ray, layers);
      Ok(Paths(before.crossings + [row], before.distances + [ray.length]))
  }

  /** `total_distance - np.sum(crossing_distances, axis=1)`: the length of each ray outside every shield. */
  function Gaps(p: Paths): (r: seq<real>)
    requires |p.crossings| == |p.distances|
    ensures |r| == |p.distances|
  {
    seq(|p.distances|, i requires 0 <= i < |p.distances| => p.distances[i] - Sum(p.crossings[i]))
  }

  /** A row of the crossing table exists exactly when every entry's crossing does. */
  lemma CrossingsDefined(m: Math, ray: RayState, layers: seq<Layer>)
    requires Boxes.WellSigned(ray)
    ensures Crossings(m, ray, layers).Ok? <==> forall j :: 0 <= j < |layers| ==> LayerCrossing(m, ray, layers[j]).Ok?
  {
    if Crossings(m, ray, layers).Ok? {
      forall j | 0 <= j < |layers|
        ensures LayerCrossing(m, ray, layers[j]).Ok?
      {
        CrossingsEntries(m, ray, layers, j);
      }
    } else {
      CrossingsErrSome(m, ray, layers);
    }
  }

  lemma {:induction false} CrossingsErrSome(m: Math, ray: RayState, layers: seq<Layer>)
    requires Boxes.WellSigned(ray) && !Crossings(m, ray, layers).Ok?
    ensures exists j :: 0 <= j < |layers| && !LayerCrossing(m, ray, layers[j]).Ok?
  {
    var init := layers[..|layers| - 1];
    CrossingsStep(m, ray, layers);
    if LayerCrossing(m, ray, layers[|layers| - 1]).Ok? {
      CrossingsErrSome(m, ray, init);
      var j :| 0 <= j < |init| && !LayerCrossing(m, ray, init[j]).Ok?;
      assert layers[j] == init[j];
    }
  }

  lemma CrossingsStep(m: Math, ray: RayState, layers: seq<Layer>)
    requires Boxes.WellSigned(ray) && layers != []
    ensures Crossings(m, ray, layers).Ok? <==>
      Crossings(m, ray, layers[..|layers| - 1]).Ok? && LayerCrossing(m, ray, layers[|layers| - 1]).Ok?
  {
  }

  /** Entry `j` of a computed row is the crossing length of entry `j` of the shield list. */
  lemma {:induction false} CrossingsEntries(m: Math, ray: RayState, layers: seq<Layer>, j: nat)
    requires Boxes.WellSigned(ray) && Crossings(m, ray, layers).Ok? && j < |layers|
    ensures LayerCrossing(m, ray, layers[j]) == Ok(Crossings(m, ray, layers).value[j])
  {
    if j < |layers| - 1 {
      var init := layers[..|layers| - 1];
      CrossingsEntries(m, ray, init, j);
    }
  }

  /**
   * Row `i` of a computed table belongs to source point `i`: its distance is
   * the length of the ray from that point to the detector, its row is that
   * ray's crossings, and its gap is the ray length less their sum.
   */
  lemma {:induction false} PathsEntries(m: Math, points: seq<Vec3>, location: Vec3, layers: seq<Layer>, i: nat)
    requires PathsTo(m, points, location, layers).Ok? && i < |points|
    ensures var p := PathsTo(m, points, location, layers).value;
      var ray := RayOf(m, points[i], location);
      Boxes.WellSigned(ray)
      && p.distances[i] == ray.length
      && Crossings(m, ray, layers) == Ok(p.crossings[i])
      && Gaps(p)[i] == ray.length - Sum(p.crossings[i])
  {
    RayOfWellSigned(m, points[i], location);
    if i < |points| - 1 {
      var init := points[..|points| - 1];
      PathsEntries(m, init, location, layers, i);
    }
  }

  // ---------------------------------------------------------------------
  // One photon line
  // ---------------------------------------------------------------------

  /** A linear attenuation coefficient (1/cm): density (g/cm^3) times mass attenuation coefficient (cm^2/g). */
  function Attenuation(density: real, mu: real): real
  {
    density * mu
  }

  /** `density * get_mass_atten_coeff(energy)` of every entry of the shield list, in order. */
  function Xsecs(m: Math, media: seq<Medium>, energy: real): (r: Result<seq<real>>)
    requires MediaWellFormed(media)
    ensures r.Ok? ==> |r.value| == |media|
  {
    if media == [] then Ok([])
    else
      var before :- Xsecs(m, media[..|media| - 1], energy);
      var md := media[|media| - 1];
      var mu :- Lookup(m, md.record.atten, Float(energy));
      Ok(before + [Attenuation(md.density, mu)])
  }

  /** The filler's cross section, when a filler is set. */
  function GapXsec(m: Math, filler: Option<Medium>, energy: real): (r: Result<Option<real>>)
    requires FillerWellFormed(filler)
    ensures filler.None? ==> r == Ok(None)
    ensures filler.Some? ==>
      (r.Ok? <==> filler.value.record.atten.Covers(energy)) &&
      (r.Ok? ==> r.value.Some?)
  {
    if filler.None? then Ok(None)
    else
      var mu :- Lookup(m, filler.value.record.atten, Float(energy));
      Ok(Some(Attenuation(filler.value.density, mu)))
  }

  /** The product of two reals. */
  function Mul(a: real, b: real): real
  {
    a * b
  }

  /** `np.sum(crossings * xsecs)` of one row. */
  function WeightedSum(xs: seq<real>, ws: seq<real>): real
    requires |xs| == |ws|
  {
    if xs == [] then 0.0 else WeightedSum(xs[..|xs| - 1], ws[..|ws| - 1]) + Mul(xs[|xs| - 1], ws[|ws| - 1])
  }

  /** The mean free paths of every source point: the row weighted by the cross sections, plus the gap in the filler when there is one. */
  function PointMfps(p: Paths, xsecs: seq<real>, gapXsec: Option<real>): (r: seq<real>)
    requires Fits(p, |xsecs|)
    ensures |r| == |p.crossings|
  {
    var gaps := Gaps(p);
    seq(|p.crossings|, i requires 0 <= i < |p.crossings| =>
      if gapXsec.None? then WeightedSum(p.crossings[i], xsecs)
      else WeightedSum(p.crossings[i], xsecs) + Mul(gaps[i], gapXsec.value))
  }

  /** The mean free paths as the array argument of the buildup factor. */
  function MfpList(mfps: seq<real>): Value
  {
    Seq(seq(|mfps|, i requires 0 <= i < |mfps| => Float(mfps[i])))
  }

  /** The buildup factor of every source point: 1 without a buildup material, the G-P factor of that material otherwise. */
  function Buildups(m: Math, buildup: Option<Material>, energy: real, mfps: seq<real>): (r: Result<seq<real>>)
    requires OptionalWellFormed(buildup)
    ensures buildup.None? ==> r == Ok(seq(|mfps|, _ => 1.0))
    ensures r.Ok? ==> |r.value| == |mfps|
  {
    if buildup.None? then Ok(seq(|mfps|, _ => 1.0))
    else
      var args :- CheckBuildupArguments(m, buildup.value.record, Float(energy), MfpList(mfps), Str("GP"));
      Ok(Values(BuildupSpec(m, args.coefficients, args.mfps)))
  }

  /** The uncollided flux from one source point: the yield, attenuated by exp(-mfp), spread over the sphere of radius d. */
  function PointFlux(m: Math, y: real, mfp: real, d: real): real
    requires d != 0.0
  {
    y * m.exp(-mfp) * SphereFraction(d)
  }

  /** The share of an isotropic point emission that crosses unit area at distance `d`: 1 / (4 pi d^2). */
  function SphereFraction(d: real): real
    requires d != 0.0
  {
    1.0 / (4.0 * Pi * (d * d))
  }

  function Fluxes(m: Math, y: real, mfps: seq<real>, distances: seq<real>): (r: seq<real>)
    requires |mfps| == |distances| && forall i :: 0 <= i < |distances| ==> distances[i] != 0.0
    ensures |r| == |mfps|
  {
    seq(|mfps|, i requires 0 <= i < |mfps| => PointFlux(m, y, mfps[i], distances[i]))
  }

  /** The element-wise product of two arrays of the same length. */
  function Pointwise(a: seq<real>, b: seq<real>): (r: seq<real>)
    requires |a| == |b|
    ensures |r| == |a|
  {
    seq(|a|, i requires 0 <= i < |a| => Mul(a[i], b[i]))
  }

  /** A row of `results_by_photon_energy`: the energy, the uncollided flux and the flux with buildup. */
  datatype LineResult = LineResult(energy: real, uncollided: real, total: real)

  /** The fluxes of one photon line, summed over the source points. */
  function LineResultOf(m: Math, line: Line, p: Paths, media: seq<Medium>,
                        filler: Option<Medium>, buildup: Option<Material>): (r: Result<LineResult>)
    requires Fits(p, |media|) && Separated(p)
    requires MediaWellFormed(media) && FillerWellFormed(filler) && OptionalWellFormed(buildup)
    ensures r.Ok? ==> r.value.energy == line.0
  {
    var xsecs :- Xsecs(m, media, line.0);
    var gapXsec :- GapXsec(m, filler, line.0);
    LineFluxes(m, line, p, PointMfps(p, xsecs, gapXsec), buildup)
  }

  /** The summed fluxes of one line, without and with buildup, from the mean free paths of every source point. */
  function LineFluxes(m: Math, line: Line, p: Paths, mfps: seq<real>, buildup: Option<Material>): (r: Result<LineResult>)
    requires |mfps| == |p.distances| && Separated(p) && OptionalWellFormed(buildup)
    ensures r.Ok? ==> r.value.energy == line.0
  {
    var factors :- Buildups(m, buildup, line.0, mfps);
    var fluxes := Fluxes(m, line.1, mfps, p.distances);
    Ok(LineResult(line.0, Sum(fluxes), Sum(Pointwise(fluxes, factors))))
  }

  /** The results of every photon line, in spectrum order. */
  function LineResults(m: Math, lines: seq<Line>, p: Paths, media: seq<Medium>,
                       filler: Option<Medium>, buildup: Option<Material>): (r: Result<seq<LineResult>>)
    requires Fits(p, |media|) && Separated(p)
    requires MediaWellFormed(media) && FillerWellFormed(filler) && OptionalWellFormed(buildup)
    ensures r.Ok? ==> |r.value| == |lines|
  {
    MapResults(lines, line => LineResultOf(m, line, p, media, filler, buildup))
  }

  /** Applies `f` to every element in order, stopping at the first error. */
  function MapResults<T, U>(xs: seq<T>, f: T -> Result<U>): (r: Result<seq<U>>)
    ensures r.Ok? ==> |r.value| == |xs| && forall i :: 0 <= i < |xs| ==> f(xs[i]) == Ok(r.value[i])
  {
    if xs == [] then Ok([])
    else
      var before :- MapResults(xs[..|xs| - 1], f);
      var last :- f(xs[|xs| - 1]);
      Ok(before + [last])
  }

  // ---------------------------------------------------------------------
  // Exposure
  // ---------------------------------------------------------------------

  /** The exposure rate (R/s) of one line, with air's mass energy-absorption coefficient `mu`. */
  function LineExposure(x: LineResult, mu: real): real
  {
    x.total * x.energy * ConversionFactor * mu
  }

  /** Air's mass energy-absorption coefficient at an energy, from air's library data. */
  function AirAbsorption(m: Math, air: MaterialRecord): real -> Result<real>
  {
    e => if air.WellFormed() then EnergyAbsorption(m, air, Float(e)) else Err(ValueError("Invalid energy"))
  }

  /** The exposure rate (R/s) of every line, with air's coefficient given by `absorption`. */
  function LineExposures(results: seq<LineResult>, absorption: real -> Result<real>): (r: Result<seq<real>>)
    ensures r.Ok? ==> |r.value| == |results|
  {
    if results == [] then Ok([])
    else
      var before :- LineExposures(results[..|results| - 1], absorption);
      var x := results[|results| - 1];
      var mu :- absorption(x.energy);
      Ok(before + [LineExposure(x, mu)])
  }

  /** An exposure rate in R/s converted to mR/hr. */
  function MilliRoentgenPerHour(rate: real): real
  {
    rate * 1000.0 * 3600.0
  }

  /** The exposure of all lines in mR/hr, with air looked up in the library. */
  function ExposureOf(m: Math, matLib: MaterialLibrary, results: seq<LineResult>): (r: Result<real>)
    requires LibraryWellFormed(matLib)
    ensures Lower("air") !in matLib ==> r == Err(ValueError("Material not found in the Material Library"))
  {
    if Lower("air") !in matLib then Err(ValueError("Material not found in the Material Library"))
    else
      var exposures :- LineExposures(results, AirAbsorption(m, matLib[Lower("air")]));
      Ok(MilliRoentgenPerHour(Sum(exposures)))
  }

  /** A rate divided among `n` source points. */
  function PointShare(rate: real, n: int): real
    requires 0 < n
  {
    rate / n as real
  }

  /** A dictionary's rates divided by the number of source points. */
  function PerPoint(d: seq<Line>, n: int): (r: seq<Line>)
    requires 0 < n
    ensures |r| == |d|
  {
    seq(|d|, i requires 0 <= i < |d| => (d[i].0, PointShare(d[i].1, n)))
  }

  /**
   * The photon list this engine receives: the source's spectrum with every
   * rate divided by the product of the points per dimension before the
   * lines are sorted and grouped.
   */
  function PerPointSpectrum(lib: Library, isotopes: seq<(string, real)>, photons: seq<Line>, progeny: bool,
                            option: GroupOption, counts: seq<int>): Result<seq<Line>>
    requires PositiveCounts(counts)
  {
    var extra :- if progeny then ProgenyEntries(lib, isotopes) else Ok([]);
    var lines :- Contributions(lib, isotopes + extra);
    ProductPositive(counts);
    var sorted := SortLines(PerPoint(Accumulate(Accumulate([], lines), photons), Product(counts)));
    if Grouped(option, |sorted|) then GroupLines(sorted) else Ok(sorted)
  }

  /**
   * `calculate_exposure`: the source points, the crossing table, the
   * per-point photon list, the fluxes of every line, and their exposure
   * in mR/hr.
   */
  function Exposure(m: Math, matLib: MaterialLibrary, isoLib: Library, src: Source, layers: seq<Layer>,
                    location: Vec3, filler: Option<Material>, buildup: Option<Material>): (r: Result<real>)
    requires src.Valid() && LibraryWellFormed(matLib)
    requires LayersWellFormed(layers) && OptionalWellFormed(filler) && OptionalWellFormed(buildup)
    reads src, LayerMaterials(layers), Footprint(filler)
    ensures BodyPoints(m, src.body, src.pointsPerDimension).Err? ==>
      r == Err(BodyPoints(m, src.body, src.pointsPerDimension).error)
  {
    var points :- BodyPoints(m, src.body, src.pointsPerDimension);
    var spectrum := PerPointSpectrum(isoLib, src.isotopes, src.photons, EqualsTrue(src.includeKeyProgeny),
                                     src.grouping, src.pointsPerDimension);
    ExposureAt(m, matLib, spectrum, points, location, layers, Media(layers), FillerMedium(filler), buildup)
  }

  lemma ExposureOnceThePointsAreKnown(m: Math, matLib: MaterialLibrary, isoLib: Library, src: Source, layers: seq<Layer>,
                                      location: Vec3, filler: Option<Material>, buildup: Option<Material>)
    requires src.Valid() && LibraryWellFormed(matLib)
    requires LayersWellFormed(layers) && OptionalWellFormed(filler) && OptionalWellFormed(buildup)
    requires BodyPoints(m, src.body, src.pointsPerDimension).Ok?
    ensures Exposure(m, matLib, isoLib, src, layers, location, filler, buildup) ==
      ExposureAt(m, matLib, PerPointSpectrum(isoLib, src.isotopes, src.photons, EqualsTrue(src.includeKeyProgeny),
                                             src.grouping, src.pointsPerDimension),
                 BodyPoints(m, src.body, src.pointsPerDimension).value, location, layers, Media(layers), FillerMedium(filler), buildup)
  {
  }

  /**
   * The exposure once the source points are known: the crossing table, the
   * check that no source point sits on the detector, the photon list
   * `spectrum` (computed by the caller, its error reported only here) and
   * the fluxes.
   */
  function ExposureAt(m: Math, matLib: MaterialLibrary, spectrum: Result<seq<Line>>, points: seq<Vec3>,
                      location: Vec3, layers: seq<Layer>, media: seq<Medium>, filler: Option<Medium>,
                      buildup: Option<Material>): (r: Result<real>)
    requires |media| == |layers| && LibraryWellFormed(matLib)
    requires MediaWellFormed(media) && FillerWellFormed(filler) && OptionalWellFormed(buildup)
    ensures PathsTo(m, points, location, layers).Err? ==> r == Err(PathsTo(m, points, location, layers).error)
    ensures PathsTo(m, points, location, layers).Ok? && !Separated(PathsTo(m, points, location, layers).value) ==>
      r == Err(ValueError(CoincidentPoint))
  {
    var p :- PathsTo(m, points, location, layers);
    if !Separated(p) then Err(ValueError(CoincidentPoint))
    else
      var lines :- spectrum;
      ExposureFrom(m, matLib, lines, p, media, filler, buildup)
  }

  /** The fluxes of every line of the photon list at every point, and their exposure in mR/hr. */
  function ExposureFrom(m: Math, matLib: MaterialLibrary, lines: seq<Line>, p: Paths, media: seq<Medium>,
                        filler: Option<Medium>, buildup: Option<Material>): (r: Result<real>)
    requires Fits(p, |media|) && Separated(p) && LibraryWellFormed(matLib)
    requires MediaWellFormed(media) && FillerWellFormed(filler) && OptionalWellFormed(buildup)
    ensures LineResults(m, lines, p, media, filler, buildup).Err? ==>
      r == Err(LineResults(m, lines, p, media, filler, buildup).error)
    ensures LineResults(m, lines, p, media, filler, buildup).Ok? ==>
      r == ExposureOf(m, matLib, LineResults(m, lines, p, media, filler, buildup).value)
  {
    var results :- LineResults(m, lines, p, media, filler, buildup);
    ExposureOf(m, matLib, results)
  }

  // ---------------------------------------------------------------------
  // Properties
  // ---------------------------------------------------------------------

  /** The cross sections exist exactly when every entry's attenuation table covers the energy. */
  lemma {:induction false} XsecsDefined(m: Math, media: seq<Medium>, energy: real)
    requires MediaWellFormed(media)
    ensures Xsecs(m, media, energy).Ok? <==> forall j :: 0 <= j < |media| ==> media[j].record.atten.Covers(energy)
  {
    if media != [] {
      var init := media[..|media| - 1];
      XsecsDefined(m, init, energy);
      assert forall j :: 0 <= j < |init| ==> init[j] == media[j];
    }
  }

  /** Entry `j` of the cross sections is that entry's density times its attenuation coefficient at the energy. */
  lemma {:induction false} XsecsEntries(m: Math, media: seq<Medium>, energy: real, j: nat)
    requires MediaWellFormed(media) && Xsecs(m, media, energy).Ok? && j < |media|
    ensures Lookup(m, media[j].record.atten, Float(energy)).Ok?
    ensures Xsecs(m, media, energy).value[j] ==
      Attenuation(media[j].density, Lookup(m, media[j].record.atten, Float(energy)).value)
  {
    if j < |media| - 1 {
      var init := media[..|media| - 1];
      XsecsEntries(m, init, energy, j);
    }
  }

  /** A row of zero crossing lengths has weighted sum 0, whatever the weights. */
  lemma {:induction false} WeightedSumZero(xs: seq<real>, ws: seq<real>)
    requires |xs| == |ws| && forall j :: 0 <= j < |xs| ==> xs[j] == 0.0
    ensures WeightedSum(xs, ws) == 0.0
  {
    if xs != [] {
      WeightedSumZero(xs[..|xs| - 1], ws[..|ws| - 1]);
    }
  }

  /** Non-negative crossing lengths and cross sections give a non-negative weighted sum. */
  lemma {:induction false} WeightedSumNonNegative(xs: seq<real>, ws: seq<real>)
    requires |xs| == |ws|
    requires forall j :: 0 <= j < |xs| ==> 0.0 <= xs[j] && 0.0 <= ws[j]
    ensures 0.0 <= WeightedSum(xs, ws)
  {
    if xs != [] {
      WeightedSumNonNegative(xs[..|xs| - 1], ws[..|ws| - 1]);
      MulLeft(0.0, xs[|xs| - 1], ws[|ws| - 1]);
      assert 0.0 <= Mul(xs[|xs| - 1], ws[|ws| - 1]);
    }
  }

  /**
   * Without shields in the way and without a filler, every point has zero
   * mean free paths, and its flux is the yield over 4 pi d^2.
   */
  lemma UnshieldedFlux(m: Math, y: real, p: Paths, xsecs: seq<real>, i: nat)
    requires m.ExpExact() && Fits(p, |xsecs|) && Separated(p) && i < |p.crossings|
    requires forall j :: 0 <= j < |xsecs| ==> p.crossings[i][j] == 0.0
    ensures PointMfps(p, xsecs, None)[i] == 0.0
    ensures Fluxes(m, y, PointMfps(p, xsecs, None), p.distances)[i] == y * SphereFraction(p.distances[i])
  {
    WeightedSumZero(p.crossings[i], xsecs);
    assert m.exp(-PointMfps(p, xsecs, None)[i]) == 1.0;
  }

  /**
   * With non-negative crossings, cross sections and (with a filler) gap
   * and filler cross section, every mean free path is non-negative.
   */
  lemma NonNegativeMfp(p: Paths, xsecs: seq<real>, gapXsec: Option<real>, i: nat)
    requires Fits(p, |xsecs|) && i < |p.crossings|
    requires forall j :: 0 <= j < |xsecs| ==> 0.0 <= p.crossings[i][j] && 0.0 <= xsecs[j]
    requires gapXsec.Some? ==> 0.0 <= gapXsec.value && 0.0 <= Gaps(p)[i]
    ensures 0.0 <= PointMfps(p, xsecs, gapXsec)[i]
  {
    WeightedSumNonNegative(p.crossings[i], xsecs);
    if gapXsec.Some? {
      MulLeft(0.0, Gaps(p)[i], gapXsec.value);
    }
  }

  /** Without a buildup material, a line's fluxes never fail, and its flux with buildup is its uncollided flux. */
  lemma NoBuildupTotal(m: Math, line: Line, p: Paths, mfps: seq<real>)
    requires |mfps| == |p.distances| && Separated(p)
    ensures LineFluxes(m, line, p, mfps, None).Ok?
    ensures LineFluxes(m, line, p, mfps, None).value.total == LineFluxes(m, line, p, mfps, None).value.uncollided
  {
    var fluxes := Fluxes(m, line.1, mfps, p.distances);
    assert Pointwise(fluxes, seq(|mfps|, _ => 1.0)) == fluxes;
  }

  /** The exposure rates of two runs of lines side by side are those of their concatenation. */
  lemma {:induction false} LineExposuresAppend(a: seq<LineResult>, b: seq<LineResult>, absorption: real -> Result<real>)
    requires LineExposures(a, absorption).Ok? && LineExposures(b, absorption).Ok?
    ensures LineExposures(a + b, absorption) == Ok(LineExposures(a, absorption).value + LineExposures(b, absorption).value)
  {
    if b != [] {
      var init := b[..|b| - 1];
      assert (a + b)[..|a + b| - 1] == a + init;
      LineExposuresAppend(a, init, absorption);
      var x := b[|b| - 1];
      assert (a + b)[|a + b| - 1] == x;
      var mu := absorption(x.energy).value;
      var ea, ei := LineExposures(a, absorption).value, LineExposures(init, absorption).value;
      assert (ea + ei) + [LineExposure(x, mu)] == ea + (ei + [LineExposure(x, mu)]);
    } else {
      assert a + b == a;
      assert LineExposures(a, absorption).value + [] == LineExposures(a, absorption).value;
    }
  }

  /** The exposure is additive over photon lines: the lines of two runs contribute their own sums. */
  lemma ExposureAdditive(a: seq<LineResult>, b: seq<LineResult>, absorption: real -> Result<real>)
    requires LineExposures(a, absorption).Ok? && LineExposures(b, absorption).Ok?
    ensures LineExposures(a + b, absorption).Ok?
    ensures Sum(LineExposures(a + b, absorption).value) ==
      Sum(LineExposures(a, absorption).value) + Sum(LineExposures(b, absorption).value)
  {
    LineExposuresAppend(a, b, absorption);
    SumAppend(LineExposures(a, absorption).value, LineExposures(b, absorption).value);
  }

  /** A source of one point receives its spectrum unscaled. */
  lemma SinglePointSpectrum(lib: Library, isotopes: seq<(string, real)>, photons: seq<Line>, progeny: bool,
                            option: GroupOption, counts: seq<int>)
    requires PositiveCounts(counts) && Product(counts) == 1
    ensures PerPointSpectrum(lib, isotopes, photons, progeny, option, counts) ==
      Spectrum(lib, isotopes, photons, progeny, option)
  {
    var extra := if progeny then ProgenyEntries(lib, isotopes) else Ok([]);
    if extra.Ok? {
      var lines := Contributions(lib, isotopes + extra.value);
      if lines.Ok? {
        var d := Accumulate(Accumulate([], lines.value), photons);
        assert PerPoint(d, 1) == d;
      }
    }
  }

  /** Per source point, the rates add up to the source's total divided by the number of points. */
  lemma {:induction false} PerPointTotal(d: seq<Line>, n: int)
    requires 0 < n
    ensures Total(PerPoint(d, n)) == PointShare(Total(d), n)
  {
    if d != [] {
      PerPointTotal(d[1..], n);
      assert PerPoint(d, n)[1..] == PerPoint(d[1..], n);
      ShareSum(d[0].1, Total(d[1..]), n);
    }
  }

  lemma ShareSum(a: real, b: real, n: int)
    requires 0 < n
    ensures PointShare(a, n) + PointShare(b, n) == PointShare(a + b, n)
  {
  }

  // ---------------------------------------------------------------------
  // The loops of `calculate_exposure`
  // ---------------------------------------------------------------------

  lemma {:induction false} CrossingsFailure(m: Math, ray: RayState, layers: seq<Layer>, k: nat)
    requires Boxes.WellSigned(ray) && k <= |layers| && Crossings(m, ray, layers[..k]).Err?
    ensures Crossings(m, ray, layers) == Err(Crossings(m, ray, layers[..k]).error)
    decreases |layers| - k
  {
    if k < |layers| {
      var init := layers[..|layers| - 1];
      assert init[..k] == layers[..k];
      CrossingsFailure(m, ray, init, k);
    } else {
      assert layers[..k] == layers;
    }
  }

  /** One more entry of the shield list: the row grows by its crossing, or fails with its error. */
  lemma CrossingsGrow(m: Math, ray: RayState, layers: seq<Layer>, j: nat, row: seq<real>)
    requires Boxes.WellSigned(ray) && j < |layers| && Crossings(m, ray, layers[..j]) == Ok(row)
    ensures var c := LayerCrossing(m, ray, layers[j]);
      Crossings(m, ray, layers[..j + 1]) == if c.Ok? then Ok(row + [c.value]) else Err(c.error)
  {
    assert layers[..j + 1][..j] == layers[..j];
  }

  /** The inner loop: the crossing length of each entry of the shield list. */
  method CrossingsLoop(m: Math, ray: RayState, layers: seq<Layer>) returns (r: Result<seq<real>>)
    requires Boxes.WellSigned(ray)
    ensures r == Crossings(m, ray, layers)
  {
    var row: seq<real> := [];
    for j := 0 to |layers|
      invariant Crossings(m, ray, layers[..j]) == Ok(row)
    {
      var c := LayerCrossing(m, ray, layers[j]);
      CrossingsGrow(m, ray, layers, j, row);
      if c.Err? {
        CrossingsFailure(m, ray, layers, j + 1);
        return Err(c.error);
      }
      row := row + [c.value];
    }
    assert layers[..|layers|] == layers;
    return Ok(row);
  }

  lemma {:induction false} PathsFailure(m: Math, points: seq<Vec3>, location: Vec3, layers: seq<Layer>, k: nat)
    requires k <= |points| && PathsTo(m, points[..k], location, layers).Err?
    ensures PathsTo(m, points, location, layers) == Err(PathsTo(m, points[..k], location, layers).error)
    decreases |points| - k
  {
    if k < |points| {
      var init := points[..|points| - 1];
      assert init[..k] == points[..k];
      PathsFailure(m, init, location, layers, k);
    } else {
      assert points[..k] == points;
    }
  }

  /** The outer loop: a ray from each source point to the detector, its length and its row of crossings. */
  method PathsLoop(m: Math, points: seq<Vec3>, location: Vec3, layers: seq<Layer>) returns (r: Result<Paths>)
    ensures r == PathsTo(m, points, location, layers)
  {
    var crossings: seq<seq<real>> := [];
    var distances: seq<real> := [];
    for i := 0 to |points|
      invariant PathsTo(m, points[..i], location, layers) == Ok(Paths(crossings, distances))
    {
      assert points[..i + 1][..|points[..i + 1]| - 1] == points[..i];
      var vector := new FiniteLengthRay.FromPoints(m, points[i], location);
      var ray := vector.State();
      RayOfWellSigned(m, points[i], location);
      var row := CrossingsLoop(m, ray, layers);
      if row.Err? {
        PathsFailure(m, points, location, layers, i + 1);
        return Err(row.error);
      }
      crossings := crossings + [row.value];
      distances := distances + [ray.length];
    }
    assert points[..|points|] == points;
    return Ok(Paths(crossings, distances));
  }

  lemma {:induction false} XsecsFailure(m: Math, media: seq<Medium>, energy: real, k: nat)
    requires MediaWellFormed(media) && k <= |media|
    requires Xsecs(m, media[..k], energy).Err?
    ensures Xsecs(m, media, energy) == Err(Xsecs(m, media[..k], energy).error)
    decreases |media| - k
  {
    if k < |media| {
      var init := media[..|media| - 1];
      assert init[..k] == media[..k];
      XsecsFailure(m, init, energy, k);
    } else {
      assert media[..k] == media;
    }
  }

  /** The cross-section loop over the shield list. */
  method XsecsLoop(m: Math, media: seq<Medium>, energy: real) returns (r: Result<seq<real>>)
    requires MediaWellFormed(media)
    ensures r == Xsecs(m, media, energy)
  {
    var xsecs: seq<real> := [];
    for j := 0 to |media|
      invariant Xsecs(m, media[..j], energy) == Ok(xsecs)
    {
      assert media[..j + 1][..|media[..j + 1]| - 1] == media[..j];
      var md := media[j];
      var mu := Lookup(m, md.record.atten, Float(energy));
      if mu.Err? {
        XsecsFailure(m, media, energy, j + 1);
        return Err(mu.error);
      }
      xsecs := xsecs + [Attenuation(md.density, mu.value)];
    }
    assert media[..|media|] == media;
    return Ok(xsecs);
  }

  /** The filler's cross section, when the model has a filler. */
  method GapXsecStep(m: Math, filler: Option<Medium>, energy: real) returns (r: Result<Option<real>>)
    requires FillerWellFormed(filler)
    ensures r == GapXsec(m, filler, energy)
  {
    if filler.None? {
      return Ok(None);
    }
    var mu := Lookup(m, filler.value.record.atten, Float(energy));
    if mu.Err? {
      return Err(mu.error);
    }
    return Ok(Some(Attenuation(filler.value.density, mu.value)));
  }

  /** The buildup factors: the buildup material's G-P factors, or 1.0 for every point without one. */
  method BuildupStep(m: Math, buildup: Option<Material>, energy: real, mfps: seq<real>) returns (r: Result<seq<real>>)
    requires OptionalWellFormed(buildup)
    ensures r == Buildups(m, buildup, energy, mfps)
  {
    if buildup.None? {
      return Ok(seq(|mfps|, _ => 1.0));
    }
    var bf := buildup.value.BuildupFactor(m, Float(energy), MfpList(mfps), Str("GP"));
    if bf.Err? {
      return Err(bf.error);
    }
    return Ok(Values(bf.value));
  }

  /** The fluxes of one line once the buildup factors are known. */
  method FluxStep(m: Math, line: Line, p: Paths, mfps: seq<real>, buildup: Option<Material>) returns (r: Result<LineResult>)
    requires |mfps| == |p.distances| && Separated(p) && OptionalWellFormed(buildup)
    ensures r == LineFluxes(m, line, p, mfps, buildup)
  {
    var factors := BuildupStep(m, buildup, line.0, mfps);
    if factors.Err? {
      return Err(factors.error);
    }
    var fluxes := Fluxes(m, line.1, mfps, p.distances);
    return Ok(LineResult(line.0, Sum(fluxes), Sum(Pointwise(fluxes, factors.value))));
  }

  /** The body of the photon loop: cross sections, mean free paths, buildup factors and the summed fluxes. */
  method LineResultStep(m: Math, line: Line, p: Paths, media: seq<Medium>,
                        filler: Option<Medium>, buildup: Option<Material>) returns (r: Result<LineResult>)
    requires Fits(p, |media|) && Separated(p)
    requires MediaWellFormed(media) && FillerWellFormed(filler) && OptionalWellFormed(buildup)
    ensures r == LineResultOf(m, line, p, media, filler, buildup)
  {
    var xsecs := XsecsLoop(m, media, line.0);
    if xsecs.Err? {
      return Err(xsecs.error);
    }
    var gapXsec := GapXsecStep(m, filler, line.0);
    if gapXsec.Err? {
      return Err(gapXsec.error);
    }
    r := FluxStep(m, line, p, PointMfps(p, xsecs.value, gapXsec.value), buildup);
  }

  lemma {:induction false} MapResultsFailure<T, U>(xs: seq<T>, f: T -> Result<U>, k: nat)
    requires k <= |xs| && MapResults(xs[..k], f).Err?
    ensures MapResults(xs, f) == Err(MapResults(xs[..k], f).error)
    decreases |xs| - k
  {
    if k < |xs| {
      var init := xs[..|xs| - 1];
      assert init[..k] == xs[..k];
      MapResultsFailure(init, f, k);
    } else {
      assert xs[..k] == xs;
    }
  }

  /** One more element: the mapped prefix grows by its image, or fails with its error. */
  lemma MapResultsStep<T, U>(xs: seq<T>, f: T -> Result<U>, i: nat, before: seq<U>)
    requires i < |xs| && MapResults(xs[..i], f) == Ok(before)
    ensures f(xs[i]).Ok? ==> MapResults(xs[..i + 1], f) == Ok(before + [f(xs[i]).value])
    ensures f(xs[i]).Err? ==> MapResults(xs[..i + 1], f) == Err(f(xs[i]).error)
  {
    assert xs[..i + 1][..i] == xs[..i];
  }

  /** The photon loop: one row of results per line of the spectrum. */
  method LineResultsLoop(m: Math, lines: seq<Line>, p: Paths, media: seq<Medium>,
                         filler: Option<Medium>, buildup: Option<Material>) returns (r: Result<seq<LineResult>>)
    requires Fits(p, |media|) && Separated(p)
    requires MediaWellFormed(media) && FillerWellFormed(filler) && OptionalWellFormed(buildup)
    ensures r == LineResults(m, lines, p, media, filler, buildup)
  {
    var f := line => LineResultOf(m, line, p, media, filler, buildup);
    var results: seq<LineResult> := [];
    for i := 0 to |lines|
      invariant MapResults(lines[..i], f) == Ok(results)
    {
      var next := LineResultStep(m, lines[i], p, media, filler, buildup);
      assert f(lines[i]) == next;
      MapResultsStep(lines, f, i, results);
      if next.Err? {
        MapResultsFailure(lines, f, i + 1);
        return Err(next.error);
      }
      results := results + [next.value];
    }
    assert lines[..|lines|] == lines;
    return Ok(results);
  }

  lemma {:induction false} LineExposuresFailure(results: seq<LineResult>, absorption: real -> Result<real>, k: nat)
    requires k <= |results| && LineExposures(results[..k], absorption).Err?
    ensures LineExposures(results, absorption) == Err(LineExposures(results[..k], absorption).error)
    decreases |results| - k
  {
    if k < |results| {
      var init := results[..|results| - 1];
      assert init[..k] == results[..k];
      LineExposuresFailure(init, absorption, k);
    } else {
      assert results[..k] == results;
    }
  }

  /** The loop that appends each line's exposure rate, using the `air` material. */
  method ExposuresLoop(m: Math, results: seq<LineResult>, air: Material) returns (r: Result<seq<real>>)
    requires air.record.WellFormed()
    ensures r == LineExposures(results, AirAbsorption(m, air.record))
  {
    var exposures: seq<real> := [];
    for i := 0 to |results|
      invariant LineExposures(results[..i], AirAbsorption(m, air.record)) == Ok(exposures)
    {
      assert results[..i + 1][..|results[..i + 1]| - 1] == results[..i];
      var x := results[i];
      var mu := air.MassEnergyAbsCoeff(m, Float(x.energy));
      assert mu == AirAbsorption(m, air.record)(x.energy);
      if mu.Err? {
        LineExposuresFailure(results, AirAbsorption(m, air.record), i + 1);
        return Err(mu.error);
      }
      exposures := exposures + [LineExposure(x, mu.value)];
    }
    assert results[..|results|] == results;
    return Ok(exposures);
  }

  /** The photon loop, the air lookup, the exposure loop and the final sum, converted to mR/hr. */
  method ExposureStep(m: Math, matLib: MaterialLibrary, lines: seq<Line>, p: Paths, media: seq<Medium>,
                      filler: Option<Medium>, buildup: Option<Material>) returns (r: Result<real>)
    requires Fits(p, |media|) && Separated(p) && LibraryWellFormed(matLib)
    requires MediaWellFormed(media) && FillerWellFormed(filler) && OptionalWellFormed(buildup)
    ensures r == ExposureFrom(m, matLib, lines, p, media, filler, buildup)
  {
    var results := LineResultsLoop(m, lines, p, media, filler, buildup);
    if results.Err? {
      return Err(results.error);
    }
    assert ExposureFrom(m, matLib, lines, p, media, filler, buildup) == ExposureOf(m, matLib, results.value);
    var air := Material.Create(matLib, Str("air"));
    if air.Err? {
      return Err(air.error);
    }
    assert Lower("air") in matLib && air.value.record == matLib[Lower("air")];
    var exposures := ExposuresLoop(m, results.value, air.value);
    if exposures.Err? {
      return Err(exposures.error);
    }
    var total := SumLoop(exposures.value);
    return Ok(MilliRoentgenPerHour(total));
  }

  /** The crossing-table loop, the coincidence check, the photon list and the remaining steps. */
  method ExposureAtStep(m: Math, matLib: MaterialLibrary, isoLib: Library, isotopes: seq<(string, real)>,
                        photons: seq<Line>, progeny: bool, option: GroupOption, counts: seq<int>,
                        points: seq<Vec3>, location: Vec3, layers: seq<Layer>, media: seq<Medium>,
                        filler: Option<Medium>, buildup: Option<Material>) returns (r: Result<real>)
    requires PositiveCounts(counts) && |media| == |layers| && LibraryWellFormed(matLib)
    requires MediaWellFormed(media) && FillerWellFormed(filler) && OptionalWellFormed(buildup)
    ensures r == ExposureAt(m, matLib, PerPointSpectrum(isoLib, isotopes, photons, progeny, option, counts),
                            points, location, layers, media, filler, buildup)
  {
    var p := PathsLoop(m, points, location, layers);
    if p.Err? {
      return Err(p.error);
    }
    if !Separated(p.value) {
      return Err(ValueError(CoincidentPoint));
    }
    var lines := PerPointPhotons(isoLib, isotopes, photons, progeny, option, counts);
    if lines.Err? {
      return Err(lines.error);
    }
    r := ExposureStep(m, matLib, lines.value, p.value, media, filler, buildup);
  }

  /** The summing loop over the exposure rates of the lines. */
  method SumLoop(xs: seq<real>) returns (total: real)
    ensures total == Sum(xs)
  {
    total := 0.0;
    for i := 0 to |xs|
      invariant total == Sum(xs[..i])
    {
      assert xs[..i + 1][..|xs[..i + 1]| - 1] == xs[..i];
      total := total + xs[i];
    }
    assert xs[..|xs|] == xs;
  }

  /**
   * The photon list of a source, per source point: the progeny and isotope
   * loops of the source, the individual photons, then each rate divided
   * by the number of points, sorted and grouped when the option calls for it.
   */
  method PerPointPhotons(lib: Library, isotopes: seq<(string, real)>, photons: seq<Line>, progeny: bool,
                         option: GroupOption, counts: seq<int>) returns (r: Result<seq<Line>>)
    requires PositiveCounts(counts)
    ensures r == PerPointSpectrum(lib, isotopes, photons, progeny, option, counts)
  {
    var entries := isotopes;
    if progeny {
      var extra := ProgenyLoop(lib, isotopes);
      if extra.Err? {
        return Err(extra.error);
      }
      entries := isotopes + extra.value;
    } else {
      assert entries == isotopes + [];
    }
    var d := ContributionLoop(lib, entries);
    if d.Err? {
      return Err(d.error);
    }
    var all := PhotonLoop(d.value, photons);
    ProductPositive(counts);
    var n := Product(counts);
    var scaled: seq<Line> := [];
    for i := 0 to |all|
      invariant |scaled| == i
      invariant forall k :: 0 <= k < i ==> scaled[k] == (all[k].0, PointShare(all[k].1, n))
    {
      scaled := scaled + [(all[i].0, PointShare(all[i].1, n))];
    }
    assert scaled == PerPoint(all, n);
    var sorted := SortLines(scaled);
    if Grouped(option, |sorted|) {
      r := GroupLines(sorted);
    } else {
      r := Ok(sorted);
    }
  }

  // ---------------------------------------------------------------------
  // The model
  // ---------------------------------------------------------------------

  /** A shielding model: its source, its shield list, its detector, and the optional filler and buildup materials. */
  class Model {
    var source: Option<Source>
    var layers: seq<Layer>
    var detector: Option<Detector>
    var filler: Option<Material>
    var buildupMaterial: Option<Material>

    /** An empty model. */
    constructor ()
      ensures source == None && layers == [] && detector == None
      ensures filler == None && buildupMaterial == None
    {
      source := None;
      layers := [];
      detector := None;
      filler := None;
      buildupMaterial := None;
    }

    /**
     * `set_filler_material`: a new material of that name, whose density is
     * replaced when one is given.  An invalid density raises after the
     * filler is already in place, with the library density.
     */
    method SetFillerMaterial(lib: MaterialLibrary, name: Value, density: Value) returns (o: Outcome)
      requires LibraryWellFormed(lib)
      modifies this
      ensures !IsString(name) ==> o == Fail(ValueError("Material name is not a string")) && filler == old(filler)
      ensures IsString(name) && Lower(name.s) !in lib ==>
        o == Fail(ValueError("Material not found in the Material Library")) && filler == old(filler)
      ensures IsString(name) && Lower(name.s) in lib ==>
        && filler.Some? && fresh(filler.value) && filler.value.Valid()
        && filler.value.name == Lower(name.s) && filler.value.record == lib[Lower(name.s)]
      ensures IsString(name) && Lower(name.s) in lib && density.NoneValue? ==>
        o == Pass && filler.value.density == lib[Lower(name.s)].density
      ensures IsString(name) && Lower(name.s) in lib && !density.NoneValue? ==>
        if IsNumber(density) && 0.0 <= AsReal(density)
        then o == Pass && filler.value.density == AsReal(density)
        else o == Fail(ValueError("Invalid density")) && filler.value.density == lib[Lower(name.s)].density
      ensures source == old(source) && layers == old(layers) && detector == old(detector)
      ensures buildupMaterial == old(buildupMaterial)
    {
      var created := Material.Create(lib, name);
      if created.Err? {
        return Fail(created.error);
      }
      var mat := created.value;
      filler := Some(mat);
      if !density.NoneValue? {
        o := mat.SetDensity(density);
      } else {
        o := Pass;
      }
    }

    /** `add_source`: the source is set and also appended to the shield list. */
    method AddSource(s: Source)
      modifies this
      ensures source == Some(s) && layers == old(layers) + [Emitter(s)]
      ensures detector == old(detector) && filler == old(filler) && buildupMaterial == old(buildupMaterial)
    {
      source := Some(s);
      layers := layers + [Emitter(s)];
    }

    /** `add_shield`: appended to the shield list, after everything added before. */
    method AddShield(s: Shield)
      modifies this
      ensures layers == old(layers) + [Wall(s)]
      ensures source == old(source) && detector == old(detector)
      ensures filler == old(filler) && buildupMaterial == old(buildupMaterial)
    {
      layers := layers + [Wall(s)];
    }

    /** `add_detector`: the one detector, replacing any earlier one. */
    method AddDetector(d: Detector)
      modifies this
      ensures detector == Some(d)
      ensures source == old(source) && layers == old(layers)
      ensures filler == old(filler) && buildupMaterial == old(buildupMaterial)
    {
      detector := Some(d);
    }

    /** `set_buildup_factor_material`. */
    method SetBuildupFactorMaterial(mat: Material)
      modifies this
      ensures buildupMaterial == Some(mat)
      ensures source == old(source) && layers == old(layers)
      ensures detector == old(detector) && filler == old(filler)
    {
      buildupMaterial := Some(mat);
    }

    /** `calculate_exposure`: the exposure rate at the detector in mR/hr. */
    method CalculateExposure(m: Math, matLib: MaterialLibrary, isoLib: Library) returns (r: Result<real>)
      requires source.Some? && detector.Some? && source.value.Valid() && LibraryWellFormed(matLib)
      requires LayersWellFormed(layers) && OptionalWellFormed(filler) && OptionalWellFormed(buildupMaterial)
      ensures r == old(Exposure(m, matLib, isoLib, source.value, layers, detector.value.Location(), filler, buildupMaterial))
    {
      var src := source.value;
      var location := detector.value.Location();
      var media := Media(layers);
      var fm := FillerMedium(filler);
      var points := src.SourcePoints(m);
      if points.Err? {
        return Err(points.error);
      }
      ExposureOnceThePointsAreKnown(m, matLib, isoLib, src, layers, location, filler, buildupMaterial);
      r := ExposureAtStep(m, matLib, isoLib, src.isotopes, src.photons, EqualsTrue(src.includeKeyProgeny),
                          src.grouping, src.pointsPerDimension, points.value, location,
                          layers, media, fm, buildupMaterial);
    }
  }
}
