/**
 * Materials of the material library: density, the tabulated mass
 * attenuation and mass energy-absorption coefficients, and the
 * geometric-progression (G-P) exposure buildup factor.  The library itself
 * is the parsed contents of the library file, passed in as a map.
 */
module Materials {
  import opened Wrappers
  import opened PyValues
  import opened RealMath
  import opened Tables
  import opened Text

  /** A coefficient table: energies in MeV, strictly increasing and positive, with one positive value each. */
  datatype Table = Table(energies: seq<real>, values: seq<real>)
  {
    predicate WellFormed() {
      |energies| == |values| >= 1 && 0.0 < energies[0] && StrictlyIncreasing(energies) &&
      forall i :: 0 <= i < |values| ==> 0.0 < values[i]
    }

    /** The energy lies between the first and the last tabulated energy. */
    predicate Covers(e: real)
      requires |energies| >= 1
    {
      energies[0] <= e <= energies[|energies| - 1]
    }
  }

  /**
   * The G-P data of a material: the tabulated energies and the five
   * coefficients as functions of ln E (the interpolants built from the table).
   */
  datatype GPData = GPData(
    energies: seq<real>,
    b: real -> real, c: real -> real, a: real -> real, X: real -> real, d: real -> real)

  /** The five G-P coefficients at one energy. */
  datatype GPCoefficients = GPCoefficients(b: real, c: real, a: real, X: real, d: real)

  /** A library entry; the energy-absorption table and the G-P data are optional. */
  datatype MaterialRecord = MaterialRecord(
    density: real,
    atten: Table,
    enAbs: Option<Table>,
    gp: Option<GPData>)
  {
    predicate WellFormed() {
      0.0 <= density && atten.WellFormed() &&
      (enAbs.Some? ==> enAbs.value.WellFormed()) &&
      (gp.Some? ==> |gp.value.energies| >= 1)
    }
  }

  type MaterialLibrary = map<string, MaterialRecord>

  predicate LibraryWellFormed(lib: MaterialLibrary) {
    forall k :: k in lib ==> lib[k].WellFormed()
  }

  /**
   * A coefficient at `energy`: 10 raised to the linear interpolation of the
   * log10 values over the log10 energies.  There is no extrapolation.
   */
  function Lookup(m: Math, t: Table, energy: Value): (r: Result<real>)
    requires t.WellFormed()
    ensures !IsNumber(energy) ==> r == Err(ValueError("Invalid energy"))
    ensures IsNumber(energy) && !t.Covers(AsReal(energy)) ==>
      r == Err(ValueError("Photon energy is out of range"))
    ensures r.Ok? <==> IsNumber(energy) && t.Covers(AsReal(energy))
    ensures r.Ok? && m.LogInverse() ==> 0.0 < r.value
  {
    if !IsNumber(energy) then Err(ValueError("Invalid energy"))
    else if !t.Covers(AsReal(energy)) then Err(ValueError("Photon energy is out of range"))
    else Ok(m.pow10(Interp(m.log10(AsReal(energy)), MapAll(m.log10, t.energies), MapAll(m.log10, t.values))))
  }

  lemma PositiveEnergies(t: Table, i: int)
    requires t.WellFormed() && 0 <= i < |t.energies|
    ensures 0.0 < t.energies[i] && t.Covers(t.energies[i])
  {
    assert t.energies[0] <= t.energies[i] <= t.energies[|t.energies| - 1];
  }

  /** The log10 energies of a table are strictly increasing too. */
  lemma LogEnergiesIncreasing(m: Math, t: Table)
    requires t.WellFormed() && m.LogIncreasing()
    ensures StrictlyIncreasing(MapAll(m.log10, t.energies))
  {
    var l := MapAll(m.log10, t.energies);
    forall i, j | 0 <= i < j < |l|
      ensures l[i] < l[j]
    {
      PositiveEnergies(t, i);
    }
  }

  /** `10 ** y` is monotone. */
  lemma Pow10Monotone(m: Math, y1: real, y2: real)
    requires m.LogInverse() && m.LogIncreasing() && y1 <= y2
    ensures m.pow10(y1) <= m.pow10(y2)
  {
  }

  /** At a tabulated energy the lookup returns the tabulated coefficient. */
  lemma LookupAtKnot(m: Math, t: Table, k: nat)
    requires t.WellFormed() && m.LogInverse() && m.LogIncreasing()
    requires k < |t.energies|
    ensures Lookup(m, t, Float(t.energies[k])) == Ok(t.values[k])
  {
    PositiveEnergies(t, k);
    LogEnergiesIncreasing(m, t);
    InterpAtKnot(MapAll(m.log10, t.energies), MapAll(m.log10, t.values), k);
    assert 0.0 < t.values[k];
  }

  /**
   * Between two neighbouring tabulated energies the lookup is 10 raised to
   * the line through the two log-log knots.
   */
  lemma LookupOnSegment(m: Math, t: Table, e: real, i: nat)
    requires t.WellFormed() && m.LogIncreasing()
    requires i + 1 < |t.energies| && t.energies[i] <= e <= t.energies[i + 1]
    ensures Lookup(m, t, Float(e)) == Ok(m.pow10(Lerp(
      m.log10(t.energies[i]), m.log10(t.energies[i + 1]),
      m.log10(t.values[i]), m.log10(t.values[i + 1]), m.log10(e))))
  {
    PositiveEnergies(t, i);
    PositiveEnergies(t, i + 1);
    LogEnergiesIncreasing(m, t);
    var l := MapAll(m.log10, t.energies);
    assert l[i] <= m.log10(e) <= l[i + 1] by {
      if t.energies[i] < e { assert m.log10(t.energies[i]) < m.log10(e); }
      if e < t.energies[i + 1] { assert m.log10(e) < m.log10(t.energies[i + 1]); }
    }
    InterpOnSegment(m.log10(e), l, MapAll(m.log10, t.values), i);
  }

  /** Between two neighbouring tabulated energies the coefficient stays between their coefficients. */
  lemma LookupBetweenKnots(m: Math, t: Table, e: real, i: nat)
    requires t.WellFormed() && m.LogInverse() && m.LogIncreasing()
    requires i + 1 < |t.energies| && t.energies[i] <= e <= t.energies[i + 1]
    ensures Lookup(m, t, Float(e)).Ok?
    ensures Min(t.values[i], t.values[i + 1]) <= Lookup(m, t, Float(e)).value <= Max(t.values[i], t.values[i + 1])
  {
    LookupOnSegment(m, t, e, i);
    PositiveEnergies(t, i);
    PositiveEnergies(t, i + 1);
    LogEnergiesIncreasing(m, t);
    var v0, v1 := m.log10(t.values[i]), m.log10(t.values[i + 1]);
    var y := Lerp(m.log10(t.energies[i]), m.log10(t.energies[i + 1]), v0, v1, m.log10(e));
    LerpBetween(m.log10(t.energies[i]), m.log10(t.energies[i + 1]), v0, v1, m.log10(e));
    assert m.pow10(v0) == t.values[i] && m.pow10(v1) == t.values[i + 1];
    if v0 <= v1 {
      Pow10Monotone(m, v0, y);
      Pow10Monotone(m, y, v1);
    } else {
      Pow10Monotone(m, v1, y);
      Pow10Monotone(m, y, v0);
    }
  }

  /** The mfp argument of the buildup factor: one number, or an array of them. */
  datatype Mfps = Scalar(x: real) | Array(xs: seq<real>)

  /** `numpy.array(mfps, dtype=float)` for a number or a flat list of numbers. */
  function ToMfps(v: Value): (r: Result<Mfps>)
    ensures r.Ok? <==> IsNumber(v) || (v.Seq? && forall i :: 0 <= i < |v.items| ==> IsNumber(v.items[i]))
    ensures IsNumber(v) ==> r == Ok(Scalar(AsReal(v)))
    ensures r.Ok? && v.Seq? ==>
      r.value.Array? && |r.value.xs| == |v.items| &&
      forall i :: 0 <= i < |v.items| ==> r.value.xs[i] == AsReal(v.items[i])
    ensures r.Err? ==> r.error == ValueError("mfps have invalid array structure")
  {
    if IsNumber(v) then Ok(Scalar(AsReal(v)))
    else if v.Seq? && forall i :: 0 <= i < |v.items| ==> IsNumber(v.items[i]) then
      Ok(Array(seq(|v.items|, i requires 0 <= i < |v.items| => AsReal(v.items[i]))))
    else Err(ValueError("mfps have invalid array structure"))
  }

  /** The mfp values as the flat array `_GP` works on. */
  function Values(k: Mfps): seq<real>
  {
    if k.Scalar? then [k.x] else k.xs
  }

  /** `np.amin(mfp) < 0`. */
  predicate AnyNegative(k: Mfps)
  {
    exists i :: 0 <= i < |Values(k)| && Values(k)[i] < 0.0
  }

  /** The G-P coefficients of `gp` at the energy `e`, read from its interpolants at ln E. */
  function CoefficientsAt(m: Math, gp: GPData, e: real): GPCoefficients
  {
    var logE := m.ln(e);
    GPCoefficients(gp.b(logE), gp.c(logE), gp.a(logE), gp.X(logE), gp.d(logE))
  }

  /** The validated arguments of a buildup factor evaluation. */
  datatype BuildupArguments = BuildupArguments(coefficients: GPCoefficients, mfps: Mfps)

  /**
   * The argument checks of `get_buildup_factor`, in order: G-P data present,
   * a string formula, the formula "GP" in any case, a number for the energy,
   * a numeric array, a non-empty array, no negative mfp, an energy inside
   * the G-P table.
   */
  function CheckBuildupArguments(m: Math, record: MaterialRecord, energy: Value, mfps: Value, formula: Value): (r: Result<BuildupArguments>)
    requires record.WellFormed()
    ensures record.gp.None? ==> r == Err(ValueError("Material has no buildup factor data available"))
    ensures record.gp.Some? && !IsString(formula) ==> r == Err(ValueError("Buildup factor type is not a string"))
    ensures record.gp.Some? && IsString(formula) && Upper(formula.s) != "GP" ==>
      r == Err(ValueError("Only GP Buildup Factors are currently supported"))
    ensures record.gp.Some? && IsString(formula) && Upper(formula.s) == "GP" && !IsNumber(energy) ==>
      r == Err(ValueError("Invalid energy"))
    ensures r.Ok? <==>
      record.gp.Some? && IsString(formula) && Upper(formula.s) == "GP" && IsNumber(energy) &&
      ToMfps(mfps).Ok? && |Values(ToMfps(mfps).value)| > 0 && !AnyNegative(ToMfps(mfps).value) &&
      record.gp.value.energies[0] <= AsReal(energy) <= record.gp.value.energies[|record.gp.value.energies| - 1]
    ensures r.Ok? ==>
      r.value.mfps == ToMfps(mfps).value &&
      r.value.coefficients == CoefficientsAt(m, record.gp.value, AsReal(energy))
  {
    if record.gp.None? then Err(ValueError("Material has no buildup factor data available"))
    else if !IsString(formula) then Err(ValueError("Buildup factor type is not a string"))
    else if Upper(formula.s) != "GP" then Err(ValueError("Only GP Buildup Factors are currently supported"))
    else if !IsNumber(energy) then Err(ValueError("Invalid energy"))
    else
      var k :- ToMfps(mfps);
      var gp := record.gp.value;
      var e := AsReal(energy);
      if |Values(k)| == 0 then Err(ValueError("zero-size array to reduction operation minimum which has no identity"))
      else if AnyNegative(k) then Err(ValueError("negative mfp"))
      else if e < gp.energies[0] || e > gp.energies[|gp.energies| - 1] then Err(ValueError("Photon energy is out of range"))
      else Ok(BuildupArguments(CoefficientsAt(m, gp, e), k))
  }

  /** `_GP` limits every mfp to the range 0 to 80. */
  function ClampMfp(t: real): (r: real)
    ensures 0.0 <= r <= 80.0
    ensures 0.0 <= t <= 80.0 ==> r == t
    ensures t > 80.0 ==> r == 80.0
    ensures t < 0.0 ==> r == 0.0
  {
    if t > 80.0 then 80.0 else if t < 0.0 then 0.0 else t
  }

  /** The K parameter at a clamped mfp: 0 at mfp 0, the G-P K formula above it. */
  function KAt(m: Math, co: GPCoefficients, t: real): real
  {
    if t > 0.0 then m.gpK(co.a, co.c, co.d, co.X, t) else 0.0
  }

  /** The G-P buildup factor as a function of K and the clamped mfp. */
  function Progression(m: Math, b: real, k: real, t: real): real
  {
    if k == 1.0 then 1.0 + (b - 1.0) * t
    else 1.0 + (b - 1.0) * (m.pow(k, t) - 1.0) / (k - 1.0)
  }

  /** The buildup factor `_GP` computes for one mfp value. */
  function BuildupAt(m: Math, co: GPCoefficients, t: real): real
  {
    var tc := ClampMfp(t);
    Progression(m, co.b, KAt(m, co, tc), tc)
  }

  /** No material between source and detector: the buildup factor is 1. */
  lemma BuildupAtZero(m: Math, co: GPCoefficients)
    requires m.PowZero()
    ensures BuildupAt(m, co, 0.0) == 1.0
  {
    assert KAt(m, co, 0.0) == 0.0;
    assert m.pow(0.0, 0.0) == 1.0;
  }

  /** K == 1 reduces the progression to the linear buildup 1 + (b - 1) mfp. */
  lemma BuildupWithUnitK(m: Math, co: GPCoefficients, t: real)
    requires 0.0 < t <= 80.0 && m.gpK(co.a, co.c, co.d, co.X, t) == 1.0
    ensures BuildupAt(m, co, t) == 1.0 + (co.b - 1.0) * t
  {
  }

  /** Mfps beyond 80 all give the buildup factor at 80, negative ones the factor at 0. */
  lemma BuildupClamped(m: Math, co: GPCoefficients, t: real)
    ensures t > 80.0 ==> BuildupAt(m, co, t) == BuildupAt(m, co, 80.0)
    ensures t < 0.0 ==> BuildupAt(m, co, t) == BuildupAt(m, co, 0.0)
  {
  }

  /** `_GP` on a scalar gives a scalar; on an array, the factor of each entry. */
  function BuildupSpec(m: Math, co: GPCoefficients, k: Mfps): (r: Mfps)
    ensures r.Scalar? <==> k.Scalar?
    ensures |Values(r)| == |Values(k)|
  {
    match k
    case Scalar(x) => Scalar(BuildupAt(m, co, x))
    case Array(xs) => Array(seq(|xs|, i requires 0 <= i < |xs| => BuildupAt(m, co, xs[i])))
  }

  /** `mfps[mfps > 80] = 80` followed by `mfps[mfps < 0] = 0`. */
  method ClampInPlace(mfps: array<real>)
    modifies mfps
    ensures forall j :: 0 <= j < mfps.Length ==> mfps[j] == ClampMfp(old(mfps[j]))
  {
    for i := 0 to mfps.Length
      invariant forall j :: 0 <= j < i ==> mfps[j] == ClampMfp(old(mfps[j]))
      invariant forall j :: i <= j < mfps.Length ==> mfps[j] == old(mfps[j])
    {
      if mfps[i] > 80.0 {
        mfps[i] := 80.0;
      }
      if mfps[i] < 0.0 {
        mfps[i] := 0.0;
      }
    }
  }

  /** The K array: zeros, overwritten by the K formula where the mfp is positive. */
  method KValues(m: Math, co: GPCoefficients, mfps: array<real>) returns (kValues: array<real>)
    ensures fresh(kValues) && kValues.Length == mfps.Length
    ensures forall j :: 0 <= j < mfps.Length ==> kValues[j] == KAt(m, co, mfps[j])
  {
    kValues := new real[mfps.Length](_ => 0.0);
    for i := 0 to mfps.Length
      invariant forall j :: 0 <= j < mfps.Length ==> kValues[j] == if j < i then KAt(m, co, mfps[j]) else 0.0
    {
      if mfps[i] > 0.0 {
        kValues[i] := m.gpK(co.a, co.c, co.d, co.X, mfps[i]);
      }
      assert kValues[i] == KAt(m, co, mfps[i]);
    }
  }

  /** The answers array: the linear form where K is 1, the progression elsewhere. */
  method Answers(m: Math, b: real, kValues: array<real>, mfps: array<real>) returns (answers: array<real>)
    requires kValues.Length == mfps.Length
    ensures fresh(answers) && answers.Length == mfps.Length
    ensures forall j :: 0 <= j < mfps.Length ==> answers[j] == Progression(m, b, kValues[j], mfps[j])
  {
    answers := new real[mfps.Length](_ => 1.0);
    for i := 0 to mfps.Length
      invariant forall j :: 0 <= j < i ==> answers[j] == Progression(m, b, kValues[j], mfps[j])
    {
      var k, t := kValues[i], mfps[i];
      var v: real;
      if k == 1.0 {
        v := 1.0 + (b - 1.0) * t;
      } else {
        v := 1.0 + (b - 1.0) * (m.pow(k, t) - 1.0) / (k - 1.0);
      }
      assert v == Progression(m, b, k, t);
      answers[i] := v;
    }
  }

  /**
   * `_GP`: wrap a scalar into a one-element array, clamp the array in place,
   * fill the K array, then the answers array, and unwrap a scalar again.
   */
  method GP(m: Math, co: GPCoefficients, k: Mfps) returns (bf: Mfps)
    ensures bf == BuildupSpec(m, co, k)
  {
    var input := Values(k);
    var mfps := new real[|input|](i requires 0 <= i < |input| => input[i]);
    ClampInPlace(mfps);
    var kValues := KValues(m, co, mfps);
    var answers := Answers(m, co.b, kValues, mfps);
    assert forall j :: 0 <= j < |input| ==> answers[j] == BuildupAt(m, co, input[j]);
    if k.Scalar? {
      bf := Scalar(answers[0]);
    } else {
      bf := Array(answers[..]);
    }
  }

  lemma ProductNonNegative(a: real, b: real, c: real)
    requires 0.0 <= a && 0.0 <= b && 0.0 <= c
    ensures 0.0 <= a * b * c
  {
    MulLeft(0.0, a, b);
    MulLeft(0.0, a * b, c);
  }

  /**
   * The mass energy-absorption coefficient in cm^2/g of a material's data.
   * A material without that table fails on indexing the missing table.
   */
  function EnergyAbsorption(m: Math, record: MaterialRecord, energy: Value): (r: Result<real>)
    requires record.WellFormed()
    ensures !IsNumber(energy) ==> r == Err(ValueError("Invalid energy"))
    ensures IsNumber(energy) && record.enAbs.None? ==> r.Err? && r.error.IndexError?
    ensures record.enAbs.Some? ==> r == Lookup(m, record.enAbs.value, energy)
  {
    if !IsNumber(energy) then Err(ValueError("Invalid energy"))
    else if record.enAbs.None? then Err(IndexError("too many indices for array"))
    else Lookup(m, record.enAbs.value, energy)
  }

  /** One material object: its name, its library data and its (settable) density. */
  class Material {
    const name: string
    const record: MaterialRecord
    var density: real

    ghost predicate Valid()
      reads this
    {
      record.WellFormed() && 0.0 <= density
    }

    constructor (name: string, record: MaterialRecord)
      requires record.WellFormed()
      ensures this.name == name && this.record == record && density == record.density
      ensures Valid()
    {
      this.name := name;
      this.record := record;
      density := record.density;
    }

    /** `Material(name)`: a string name, lowercased, that the library holds. */
    static method Create(lib: MaterialLibrary, name: Value) returns (r: Result<Material>)
      requires LibraryWellFormed(lib)
      ensures !IsString(name) ==> r == Err(ValueError("Material name is not a string"))
      ensures IsString(name) && Lower(name.s) !in lib ==>
        r == Err(ValueError("Material not found in the Material Library"))
      ensures r.Ok? <==> IsString(name) && Lower(name.s) in lib
      ensures r.Ok? ==>
        fresh(r.value) && r.value.Valid() && r.value.name == Lower(name.s) &&
        r.value.record == lib[Lower(name.s)] && r.value.density == lib[Lower(name.s)].density
    {
      if !IsString(name) {
        return Err(ValueError("Material name is not a string"));
      }
      var key := Lower(name.s);
      if key !in lib {
        return Err(ValueError("Material not found in the Material Library"));
      }
      var mat := new Material(key, lib[key]);
      return Ok(mat);
    }

    /** The density setter: a non-negative number, or ValueError and no change. */
    method SetDensity(value: Value) returns (o: Outcome)
      requires Valid()
      modifies this
      ensures Valid()
      ensures o == if IsNumber(value) && 0.0 <= AsReal(value) then Pass else Fail(ValueError("Invalid density"))
      ensures density == if o.Pass? then AsReal(value) else old(density)
    {
      if !IsNumber(value) || AsReal(value) < 0.0 {
        return Fail(ValueError("Invalid density"));
      }
      density := AsReal(value);
      return Pass;
    }

    /** The mass attenuation coefficient in cm^2/g. */
    function MassAttenCoeff(m: Math, energy: Value): (r: Result<real>)
      requires record.WellFormed()
      ensures r.Ok? <==> IsNumber(energy) && record.atten.Covers(AsReal(energy))
      ensures r == Lookup(m, record.atten, energy)
    {
      Lookup(m, record.atten, energy)
    }

    /**
     * The mass energy-absorption coefficient in cm^2/g.  A material without
     * that table fails on indexing the missing table.
     */
    function MassEnergyAbsCoeff(m: Math, energy: Value): (r: Result<real>)
      requires record.WellFormed()
      ensures r == EnergyAbsorption(m, record, energy)
    {
      EnergyAbsorption(m, record, energy)
    }

    /**
     * The number of mean free paths over `distance` cm: 0 for distance 0
     * (no energy range check), otherwise distance times density times the
     * mass attenuation coefficient.
     */
    function Mfp(m: Math, energy: Value, distance: Value): (r: Result<real>)
      requires Valid()
      reads this
      ensures !IsNumber(energy) ==> r == Err(ValueError("Invalid energy"))
      ensures IsNumber(energy) && (!IsNumber(distance) || AsReal(distance) < 0.0) ==>
        r == Err(ValueError("Invalid distance"))
      ensures IsNumber(energy) && IsNumber(distance) && AsReal(distance) == 0.0 ==> r == Ok(0.0)
      ensures IsNumber(energy) && IsNumber(distance) && 0.0 < AsReal(distance) ==>
        (r.Ok? <==> record.atten.Covers(AsReal(energy))) &&
        (r.Ok? ==> r.value == AsReal(distance) * density * MassAttenCoeff(m, energy).value)
    {
      if !IsNumber(energy) then Err(ValueError("Invalid energy"))
      else if !IsNumber(distance) || AsReal(distance) < 0.0 then Err(ValueError("Invalid distance"))
      else if AsReal(distance) == 0.0 then Ok(0.0)
      else
        var mu :- MassAttenCoeff(m, energy);
        Ok(AsReal(distance) * density * mu)
    }

    /** A mean free path that is computed is never negative. */
    lemma MfpNonNegative(m: Math, energy: Value, distance: Value)
      requires Valid() && m.LogInverse()
      ensures Mfp(m, energy, distance).Ok? ==> 0.0 <= Mfp(m, energy, distance).value
    {
      var r := Mfp(m, energy, distance);
      if r.Ok? && AsReal(distance) != 0.0 {
        var mu := MassAttenCoeff(m, energy);
        ProductNonNegative(AsReal(distance), density, mu.value);
      }
    }

    /** Mean free paths add up over consecutive stretches of the same material. */
    lemma MfpAdditive(m: Math, energy: real, d1: real, d2: real)
      requires Valid() && record.atten.Covers(energy)
      requires 0.0 <= d1 && 0.0 <= d2
      ensures Mfp(m, Float(energy), Float(d1 + d2)).Ok?
      ensures Mfp(m, Float(energy), Float(d1 + d2)).value ==
        Mfp(m, Float(energy), Float(d1)).value + Mfp(m, Float(energy), Float(d2)).value
    {
      var mu := MassAttenCoeff(m, Float(energy)).value;
      assert (d1 + d2) * density * mu == d1 * density * mu + d2 * density * mu;
    }

    /**
     * `get_buildup_factor`: the argument checks, then `_GP` at the
     * coefficients interpolated at the energy.
     */
    method BuildupFactor(m: Math, energy: Value, mfps: Value, formula: Value) returns (r: Result<Mfps>)
      requires record.WellFormed()
      ensures r.Ok? <==> CheckBuildupArguments(m, record, energy, mfps, formula).Ok?
      ensures r.Err? ==> r.error == CheckBuildupArguments(m, record, energy, mfps, formula).error
      ensures r.Ok? ==>
        var args := CheckBuildupArguments(m, record, energy, mfps, formula).value;
        r.value == BuildupSpec(m, args.coefficients, args.mfps)
    {
      var args := CheckBuildupArguments(m, record, energy, mfps, formula);
      if args.Err? {
        return Err(args.error);
      }
      var bf := GP(m, args.value.coefficients, args.value.mfps);
      return Ok(bf);
    }
  }
}
