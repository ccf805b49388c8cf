/**
 * Radiation sources: the isotope and photon lists every source keeps,
 * the validation of its settings, its photon spectrum, its source points
 * and weights, and the shielding its own body provides.  Point and line
 * sources are massless; box and axis-aligned cylinder sources are also
 * shields of their own material.
 */
module Sources {
  import opened Wrappers
  import opened PyValues
  import opened RealMath
  import opened Vectors
  import opened Geometry
  import opened Rays
  import opened Isotopes
  import opened Spectra
  import opened Grids
  import opened Materials
  import opened Shields
  import Boxes

  /** Becquerels per curie. */
  const BqPerCurie: real := 37000000000.0

  const NonIntegerCounts: string := "Number of Source Points per Dimension is/are non-integer"
  const NonPositiveCounts: string := "Source Points per Dimension must be positive integers"

  /** The shape of a source. */
  datatype Body =
    | PointBody(location: Vec3)
    | LineBody(start: Vec3, end: Vec3, length: real, dir: Vec3)
    | BoxBody(box: Box)
    | CylinderBody(axis: nat, cylinder: Cylinder)

  /** A line has a positive length and the unit direction from its start to its end; an axis is x, y or z. */
  predicate WellFormed(body: Body)
  {
    match body
    case LineBody(start, end, length, dir) => 0.0 < length && dir == DivScalar(Sub(end, start), length)
    case CylinderBody(axis, _) => axis < 3
    case _ => true
  }

  /** `LineSource.__init__`: the length of the line and its unit direction. */
  function LineBodyOf(m: Math, start: Vec3, end: Vec3): (b: Body)
    requires Norm(m, Sub(end, start)) != 0.0
    ensures b.LineBody? && b.start == start && b.end == end && b.length == Norm(m, Sub(end, start))
    ensures 0.0 < b.length ==> WellFormed(b)
  {
    var length := Norm(m, Sub(end, start));
    LineBody(start, end, length, DivScalar(Sub(end, start), length))
  }

  /** The points per dimension a new source starts with. */
  function DefaultCounts(body: Body): (r: seq<int>)
    ensures PositiveCounts(r)
  {
    match body
    case PointBody(_) => [1]
    case LineBody(_, _, _, _) => [10]
    case _ => [10, 10, 10]
  }

  /** The string value of a grouping option. */
  function GroupName(g: GroupOption): string
  {
    match g
    case Group => "group"
    case Hybrid => "hybrid"
    case Discrete => "discrete"
  }

  /** The grouping option a setter value names, if any: exactly the three option strings are accepted. */
  function GroupOptionOf(value: Value): (r: Option<GroupOption>)
    ensures r.Some? ==> value == Str(GroupName(r.value))
    ensures forall g :: value == Str(GroupName(g)) ==> r == Some(g)
  {
    if value == Str("hybrid") then Some(Hybrid)
    else if value == Str("group") then Some(Group)
    else if value == Str("discrete") then Some(Discrete)
    else None
  }

  /** The items the points-per-dimension setter checks: an int is wrapped in a list, anything else is iterated. */
  function CountItems(value: Value): (r: Result<seq<Value>>)
    ensures IsInt(value) ==> r == Ok([value])
    ensures !IsInt(value) && IsIterable(value) ==> r == Ok(Elements(value))
    ensures r.Err? <==> !IsInt(value) && !IsIterable(value)
  {
    if IsInt(value) then Ok([value])
    else if IsIterable(value) then Ok(Elements(value))
    else Err(TypeError("object is not iterable"))
  }

  /**
   * The points-per-dimension setter's checks: every item must be an int,
   * then every item must be positive.
   */
  function PointsOf(value: Value): (r: Result<seq<int>>)
    ensures r.Ok? ==> PositiveCounts(r.value)
    ensures r.Ok? <==>
      (CountItems(value).Ok? && forall v :: v in CountItems(value).value ==> IsInt(v) && 0 < AsInt(v))
    ensures CountItems(value).Err? ==> r == Err(CountItems(value).error)
    ensures CountItems(value).Ok? && (exists v :: v in CountItems(value).value && !IsInt(v)) ==>
      r == Err(ValueError(NonIntegerCounts))
    ensures
      (&& CountItems(value).Ok?
       && (forall v :: v in CountItems(value).value ==> IsInt(v))
       && (exists v :: v in CountItems(value).value && AsInt(v) <= 0))
      ==> r == Err(ValueError(NonPositiveCounts))
    ensures r.Ok? ==>
      (&& |r.value| == |CountItems(value).value|
       && forall i :: 0 <= i < |r.value| ==>
            (Int(r.value[i]) == CountItems(value).value[i] ||
             (CountItems(value).value[i] == Bool(true) && r.value[i] == 1)))
  {
    var items :- CountItems(value);
    if exists v :: v in items && !IsInt(v) then Err(ValueError(NonIntegerCounts))
    else if exists v :: v in items && AsInt(v) <= 0 then Err(ValueError(NonPositiveCounts))
    else Ok(seq(|items|, i requires 0 <= i < |items| => AsInt(items[i])))
  }

  /** A list of ints as a setter value. */
  function IntList(counts: seq<int>): Value
  {
    Seq(seq(|counts|, i requires 0 <= i < |counts| => Int(counts[i])))
  }

  /** The setter accepts every list of positive ints unchanged, and a positive int as a one-element list. */
  lemma PointsRoundTrip(counts: seq<int>, n: int)
    requires PositiveCounts(counts) && 0 < n
    ensures PointsOf(IntList(counts)) == Ok(counts)
    ensures PointsOf(Int(n)) == Ok([n])
  {
    var items := CountItems(IntList(counts)).value;
    assert items == IntList(counts).items;
    assert forall i :: 0 <= i < |items| ==> items[i] == Int(counts[i]);
    assert forall v :: v in items ==> IsInt(v) && 0 < AsInt(v);
    assert PointsOf(IntList(counts)) == Ok(seq(|items|, i requires 0 <= i < |items| => AsInt(items[i])));
    assert PointsOf(IntList(counts)).value == counts;
    assert CountItems(Int(n)) == Ok([Int(n)]);
    assert forall v :: v in [Int(n)] ==> IsInt(v) && 0 < AsInt(v);
    var one := [Int(n)];
    assert PointsOf(Int(n)) == Ok(seq(|one|, i requires 0 <= i < |one| => AsInt(one[i])));
    assert seq(|one|, i requires 0 <= i < |one| => AsInt(one[i])) == [n];
  }

  /**
   * The box and cylinder sources' points: a box source and a cylinder
   * source need three counts; a line source takes the first count; a
   * point source has its one point whatever the counts.
   */
  function BodyPoints(m: Math, body: Body, counts: seq<int>): (r: Result<seq<Vec3>>)
    requires WellFormed(body) && PositiveCounts(counts)
    ensures body.PointBody? ==> r == Ok([body.location])
    ensures (body.BoxBody? || body.CylinderBody?) && |counts| != 3 ==>
      r == Err(ValueError("Source Points per Dimension needs three entries"))
    ensures body.LineBody? ==> (r.Err? <==> counts == [])
  {
    match body
    case PointBody(p) => Ok([p])
    case LineBody(start, _, length, dir) =>
      if counts == [] then Err(IndexError("list index out of range"))
      else Ok(LineGrid(start, dir, length, counts[0]))
    case BoxBody(b) =>
      if |counts| != 3 then Err(ValueError("Source Points per Dimension needs three entries"))
      else Ok(BoxGrid(b, counts[0], counts[1], counts[2]))
    case CylinderBody(axis, c) => AlignedCylinderPoints(m, Pi, axis, c, counts)
  }

  /**
   * There is one weight per point whenever the counts describe the body:
   * one count for a line, a product of 1 for a point, three for a box or
   * a cylinder; the weights are then equal and sum to 1.
   */
  lemma WeightsMatchPoints(m: Math, body: Body, counts: seq<int>)
    requires WellFormed(body) && PositiveCounts(counts)
    requires body.LineBody? ==> |counts| == 1
    requires body.PointBody? ==> counts != [] && Product(counts) == 1
    requires BodyPoints(m, body, counts).Ok?
    ensures Weights(counts).Ok?
    ensures |Weights(counts).value| == |BodyPoints(m, body, counts).value|
    ensures Sum(Weights(counts).value) == 1.0
  {
    var r := BodyPoints(m, body, counts);
    if body.BoxBody? || body.CylinderBody? {
      ThreeProduct(counts);
      if body.BoxBody? {
        BoxGridInsideCount(body.box, counts[0], counts[1], counts[2]);
      } else {
        CylinderGridCount(m, Pi, counts[0], counts[1], counts[2], body.cylinder.length, body.cylinder.radius);
      }
    } else if body.LineBody? {
      assert counts == [counts[0]];
      assert Product(counts) == Product([]) * counts[0];
    }
  }

  lemma ThreeProduct(counts: seq<int>)
    requires |counts| == 3
    ensures Product(counts) == counts[0] * counts[1] * counts[2]
  {
    var a, b := counts[..1], counts[..2];
    assert Product(a) == counts[0] by {
      assert a[..0] == [];
    }
    assert b[..1] == a;
    assert Product(b) == Product(a) * counts[1];
    assert counts[..2] == b;
  }

  lemma BoxGridInsideCount(b: Box, nx: nat, ny: nat, nz: nat)
    requires 0 < nx && 0 < ny && 0 < nz
    ensures |BoxGrid(b, nx, ny, nz)| == nx * ny * nz
  {
    var lo := b.Low();
    GridLength(Cells(lo.x, b.dimensions.x, nx), Cells(lo.y, b.dimensions.y, ny), Cells(lo.z, b.dimensions.z, nz), Point);
  }

  /** The shield a source body also is: none for a point or a line. */
  function BodyShield(body: Body, material: Material): (r: Option<Shield>)
    ensures r.None? <==> body.PointBody? || body.LineBody?
    ensures r.Some? ==> r.value.material == material && MfpMaterial(r.value) == material
  {
    match body
    case BoxBody(b) => Some(Shield(material, Cuboid(b)))
    case CylinderBody(_, c) => Some(Shield(material, Can(c)))
    case _ => None
  }

  /**
   * `_get_crossing_length` of a source: 0 for a point or a line source,
   * the length through the body for a box or cylinder source.
   */
  function SelfCrossingLength(m: Math, ray: RayState, body: Body, material: Material): (r: Result<real>)
    requires Boxes.WellSigned(ray)
  {
    var s := BodyShield(body, material);
    if s.None? then Ok(0.0) else CrossingLength(m, ray, s.value)
  }

  /**
   * `get_crossing_mfp` of a source: 0 for a point or a line source
   * (the energy is not even checked), the shield's mean free paths otherwise.
   */
  function SelfCrossingMfp(m: Math, ray: RayState, body: Body, material: Material, energy: Value): (r: Result<real>)
    requires Boxes.WellSigned(ray) && material.Valid()
    reads material
  {
    var s := BodyShield(body, material);
    if s.None? then Ok(0.0) else CrossingMfp(m, ray, s.value, energy)
  }

  /**
   * A point or line source never shields, whatever the ray and the
   * energy; through any other source body a regular ray crosses a length
   * between 0 and its own length (only a box may raise), and its mean
   * free paths are never negative.
   */
  lemma SelfShielding(m: Math, ray: RayState, body: Body, material: Material, energy: Value)
    requires m.SqrtExact() && m.LogInverse() && Regular(ray) && Boxes.WellSigned(ray) && material.Valid()
    ensures body.PointBody? || body.LineBody? ==>
      SelfCrossingLength(m, ray, body, material) == Ok(0.0) && SelfCrossingMfp(m, ray, body, material, energy) == Ok(0.0)
    ensures !body.BoxBody? ==> SelfCrossingLength(m, ray, body, material).Ok?
    ensures SelfCrossingLength(m, ray, body, material).Ok? ==>
      0.0 <= SelfCrossingLength(m, ray, body, material).value <= ray.length
    ensures SelfCrossingMfp(m, ray, body, material, energy).Ok? ==> 0.0 <= SelfCrossingMfp(m, ray, body, material, energy).value
  {
    RegularLength(ray);
    var s := BodyShield(body, material);
    if s.Some? {
      CrossingWithinRay(m, ray, s.value);
      var d := CrossingLength(m, ray, s.value);
      if IsNumber(energy) && d.Ok? {
        material.MfpNonNegative(m, energy, Float(d.value));
      }
    }
  }

  /** The progeny lookups fail with the first failing lookup's error. */
  lemma {:induction false} ProgenyFailure(lib: Library, s: seq<(string, real)>, k: nat)
    requires k <= |s| && ProgenyEntries(lib, s[..k]).Err?
    ensures ProgenyEntries(lib, s) == Err(ProgenyEntries(lib, s[..k]).error)
    decreases |s| - k
  {
    if k < |s| {
      var init := s[..|s| - 1];
      assert init[..k] == s[..k];
      ProgenyFailure(lib, init, k);
    } else {
      assert s[..k] == s;
    }
  }

  /** The photon lookups fail with the first failing lookup's error. */
  lemma {:induction false} ContributionsFailure(lib: Library, s: seq<(string, real)>, k: nat)
    requires k <= |s| && Contributions(lib, s[..k]).Err?
    ensures Contributions(lib, s) == Err(Contributions(lib, s[..k]).error)
    decreases |s| - k
  {
    if k < |s| {
      var init := s[..|s| - 1];
      assert init[..k] == s[..k];
      ContributionsFailure(lib, init, k);
    } else {
      assert s[..k] == s;
    }
  }

  /** Adding one more line to the dictionary built from a prefix. */
  lemma AccumulateStep(d: seq<Line>, before: seq<Line>, next: seq<Line>, j: nat)
    requires j < |next|
    ensures Accumulate(d, before + next[..j + 1]) == AddRate(Accumulate(d, before + next[..j]), next[j])
  {
    var s := before + next[..j + 1];
    assert s[..|s| - 1] == before + next[..j];
  }

  /** A source: its body, its own material, and the settings and lists the methods update. */
  class Source {
    const body: Body
    const material: Material
    var isotopes: seq<(string, real)>
    var photons: seq<Line>
    var pointsPerDimension: seq<int>
    var includeKeyProgeny: Value
    var grouping: GroupOption

    ghost predicate Valid()
      reads this
    {
      WellFormed(body) && PositiveCounts(pointsPerDimension)
    }

    /** A source with no isotopes and no photons, the default counts for its body, no progeny and hybrid grouping. */
    constructor (body: Body, material: Material)
      requires WellFormed(body)
      ensures Valid()
      ensures this.body == body && this.material == material
      ensures isotopes == [] && photons == [] && pointsPerDimension == DefaultCounts(body)
      ensures includeKeyProgeny == Bool(false) && grouping == Hybrid
    {
      this.body := body;
      this.material := material;
      isotopes := [];
      photons := [];
      pointsPerDimension := DefaultCounts(body);
      includeKeyProgeny := Bool(false);
      grouping := Hybrid;
    }

    /** `add_isotope_curies`: the activity is stored in becquerels. */
    method AddIsotopeCuries(name: string, curies: real)
      modifies this
      ensures isotopes == old(isotopes) + [(name, curies * BqPerCurie)]
      ensures photons == old(photons) && pointsPerDimension == old(pointsPerDimension)
      ensures includeKeyProgeny == old(includeKeyProgeny) && grouping == old(grouping)
    {
      isotopes := isotopes + [(name, curies * BqPerCurie)];
    }

    /** `add_isotope_bq`. */
    method AddIsotopeBq(name: string, becquerels: real)
      modifies this
      ensures isotopes == old(isotopes) + [(name, becquerels)]
      ensures photons == old(photons) && pointsPerDimension == old(pointsPerDimension)
      ensures includeKeyProgeny == old(includeKeyProgeny) && grouping == old(grouping)
    {
      isotopes := isotopes + [(name, becquerels)];
    }

    /** `add_photon`: only the individually added photons change. */
    method AddPhoton(energy: real, intensity: real)
      modifies this
      ensures photons == old(photons) + [(energy, intensity)]
      ensures isotopes == old(isotopes) && pointsPerDimension == old(pointsPerDimension)
      ensures includeKeyProgeny == old(includeKeyProgeny) && grouping == old(grouping)
    {
      photons := photons + [(energy, intensity)];
    }

    /**
     * `list_isotopes`: the isotope entries in the order they were added,
     * each activity in becquerels.
     */
    method ListIsotopes() returns (r: seq<(string, real)>)
      ensures r == isotopes
    {
      r := isotopes;
    }

    /**
     * `list_discrete_photons`: only the individually added photons, in the
     * order they were added; no photon of an isotope entry is among them.
     */
    method ListDiscretePhotons() returns (r: seq<Line>)
      ensures r == photons
    {
      r := photons;
    }

    /** The `grouping` setter: one of the three option strings, or ValueError and no change. */
    method SetGrouping(value: Value) returns (o: Outcome)
      modifies this
      ensures GroupOptionOf(value).Some? ==> o == Pass && grouping == GroupOptionOf(value).value
      ensures GroupOptionOf(value).None? ==> o == Fail(ValueError("Invalid grouping option")) && grouping == old(grouping)
      ensures isotopes == old(isotopes) && photons == old(photons)
      ensures pointsPerDimension == old(pointsPerDimension) && includeKeyProgeny == old(includeKeyProgeny)
    {
      var option := GroupOptionOf(value);
      if option.None? {
        return Fail(ValueError("Invalid grouping option"));
      }
      grouping := option.value;
      return Pass;
    }

    /** The `include_key_progeny` setter stores any value; only `True` turns the progeny on. */
    method SetIncludeKeyProgeny(value: Value)
      modifies this
      ensures includeKeyProgeny == value
      ensures isotopes == old(isotopes) && photons == old(photons)
      ensures pointsPerDimension == old(pointsPerDimension) && grouping == old(grouping)
    {
      includeKeyProgeny := value;
    }

    /** The `points_per_dimension` setter: a valid value is stored, an invalid one raises and changes nothing. */
    method SetPointsPerDimension(value: Value) returns (o: Outcome)
      requires Valid()
      modifies this
      ensures Valid()
      ensures PointsOf(value).Ok? ==> o == Pass && pointsPerDimension == PointsOf(value).value
      ensures PointsOf(value).Err? ==> o == Fail(PointsOf(value).error) && pointsPerDimension == old(pointsPerDimension)
      ensures isotopes == old(isotopes) && photons == old(photons)
      ensures includeKeyProgeny == old(includeKeyProgeny) && grouping == old(grouping)
    {
      var counts := PointsOf(value);
      if counts.Err? {
        return Fail(counts.error);
      }
      pointsPerDimension := counts.value;
      return Pass;
    }

    /** `_get_source_points`. */
    method SourcePoints(m: Math) returns (r: Result<seq<Vec3>>)
      requires Valid()
      ensures r == BodyPoints(m, body, pointsPerDimension)
    {
      match body
      case PointBody(p) =>
        r := Ok([p]);
      case LineBody(start, _, length, dir) =>
        r := LinePoints(start, dir, length, pointsPerDimension);
      case BoxBody(b) =>
        r := BoxPoints(b, pointsPerDimension);
      case CylinderBody(axis, c) =>
        r := CylinderPoints(m, Pi, axis, c, pointsPerDimension);
    }

    /**
     * `get_photon_source_list`: the key progeny entries when asked for,
     * then every photon of every isotope entry and every individual photon
     * summed into a dictionary keyed by energy, sorted, and grouped when
     * the option calls for it.
     */
    method PhotonSourceList(lib: Library) returns (r: Result<seq<Line>>)
      ensures r == Spectrum(lib, isotopes, photons, includeKeyProgeny == Bool(true), grouping)
    {
      var entries := isotopes;
      if includeKeyProgeny == Bool(true) {
        var extra := ProgenyLoop(lib, isotopes);
        if extra.Err? {
          return Err(extra.error);
        }
        entries := isotopes + extra.value;
      } else {
        assert entries == isotopes + [];
      }
      var d := ContributionLoop(lib, entries);
      if d.Err? {
        return Err(d.error);
      }
      var all := PhotonLoop(d.value, photons);
      var sorted := SortLines(all);
      if Grouped(grouping, |sorted|) {
        r := GroupLines(sorted);
      } else {
        r := Ok(sorted);
      }
    }
  }

  /** The progeny loop: the key progeny of each isotope entry, at the entry's activity times the ratio. */
  method ProgenyLoop(lib: Library, isotopes: seq<(string, real)>) returns (r: Result<seq<(string, real)>>)
    ensures r == ProgenyEntries(lib, isotopes)
  {
    var entries: seq<(string, real)> := [];
    for i := 0 to |isotopes|
      invariant ProgenyEntries(lib, isotopes[..i]) == Ok(entries)
    {
      assert isotopes[..i + 1][..i] == isotopes[..i];
      var detail := NewIsotope(lib, Str(isotopes[i].0));
      if detail.Err? {
        ProgenyFailure(lib, isotopes, i + 1);
        return Err(detail.error);
      }
      if detail.value.keyProgeny.Some? {
        entries := DaughterLoop(entries, detail.value.keyProgeny.value, isotopes[i].1);
      } else {
        assert entries + ProgenyOf(detail.value.keyProgeny, isotopes[i].1) == entries;
      }
    }
    assert isotopes[..|isotopes|] == isotopes;
    return Ok(entries);
  }

  /** The inner loop over one isotope's key progeny, appending each daughter at the parent's activity times its ratio. */
  method DaughterLoop(prefix: seq<(string, real)>, ps: seq<(string, real)>, bq: real) returns (entries: seq<(string, real)>)
    ensures entries == prefix + ProgenyOf(Some(ps), bq)
  {
    var kp := ProgenyOf(Some(ps), bq);
    entries := prefix;
    for j := 0 to |ps|
      invariant entries == prefix + kp[..j]
    {
      assert kp[..j + 1] == kp[..j] + [Daughter(ps[j], bq)];
      entries := entries + [Daughter(ps[j], bq)];
    }
    assert kp[..|ps|] == kp;
  }

  /** The isotope loop: each entry's photons at the entry's activity, summed into the dictionary. */
  method ContributionLoop(lib: Library, entries: seq<(string, real)>) returns (r: Result<seq<Line>>)
    ensures Contributions(lib, entries).Err? ==> r == Err(Contributions(lib, entries).error)
    ensures Contributions(lib, entries).Ok? ==> r == Ok(Accumulate([], Contributions(lib, entries).value))
  {
    var d: seq<Line> := [];
    for i := 0 to |entries|
      invariant Contributions(lib, entries[..i]).Ok?
      invariant d == Accumulate([], Contributions(lib, entries[..i]).value)
    {
      assert entries[..i + 1][..i] == entries[..i];
      var detail := NewIsotope(lib, Str(entries[i].0));
      if detail.Err? {
        ContributionsFailure(lib, entries, i + 1);
        return Err(detail.error);
      }
      var bq := entries[i].1;
      var before := Contributions(lib, entries[..i]).value;
      var ls := IsotopeLines(detail.value.photons, bq);
      if detail.value.photons.Some? {
        var ps := detail.value.photons.value;
        assert before + ls[..0] == before;
        for j := 0 to |ps|
          invariant d == Accumulate([], before + ls[..j])
        {
          AccumulateStep([], before, ls, j);
          d := AddRate(d, Emission(ps[j], bq));
        }
        assert ls[..|ps|] == ls;
      } else {
        assert before + ls == before;
      }
    }
    assert entries[..|entries|] == entries;
    return Ok(d);
  }

  /** The loop over the individually added photons, summed into the dictionary. */
  method PhotonLoop(d: seq<Line>, photons: seq<Line>) returns (r: seq<Line>)
    ensures r == Accumulate(d, photons)
  {
    r := d;
    for j := 0 to |photons|
      invariant r == Accumulate(d, photons[..j])
    {
      assert photons[..j + 1][..j] == photons[..j];
      r := AddRate(r, photons[j]);
    }
    assert photons[..|photons|] == photons;
  }

  /**
   * The isotope list keeps insertion order and holds only isotope entries:
   * an isotope in curies, one in becquerels and a photon, added in turn,
   * appear in the two lists in the order they were added.
   */
  method ListsKeepOrder(s: Source, a: string, curies: real, b: string, bq: real, energy: real, intensity: real)
    returns (isotopes: seq<(string, real)>, photons: seq<Line>)
    modifies s
    ensures isotopes == old(s.isotopes) + [(a, curies * BqPerCurie), (b, bq)]
    ensures photons == old(s.photons) + [(energy, intensity)]
  {
    s.AddIsotopeCuries(a, curies);
    s.AddIsotopeBq(b, bq);
    s.AddPhoton(energy, intensity);
    isotopes := s.ListIsotopes();
    photons := s.ListDiscretePhotons();
  }
}
