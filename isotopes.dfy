/**
 * Isotope records of the isotope library: name normalisation, lookup and
 * half-life unit conversion.  The library itself is the parsed contents of
 * the library file, passed in as a map.
 */
module Isotopes {
  import opened Wrappers
  import opened PyValues
  import opened Text

  /** One photon line: energy in MeV and yield per decay. */
  type Photon = (real, real)

  /**
   * A library entry as read from the library file; the key progeny are
   * listed in the file's order, each with its activity ratio to the parent.
   */
  datatype IsotopeRecord = IsotopeRecord(
    halfLife: real,
    halfLifeUnits: Option<string>,
    keyProgeny: Option<seq<(string, real)>>,
    photons: Option<seq<Photon>>)

  type Library = map<string, IsotopeRecord>

  /** An isotope object. */
  datatype Isotope = Isotope(
    name: string,
    halfLife: real,
    keyProgeny: Option<seq<(string, real)>>,
    photons: Option<seq<Photon>>)

  /** The library key for a user-supplied name, `name.lower().capitalize()`. */
  function Normalize(name: string): string
  {
    Capitalize(Lower(name))
  }

  /** Normalising an already normalised name changes nothing. */
  lemma NormalizeIdempotent(s: string)
    ensures Normalize(Normalize(s)) == Normalize(s)
  {
    var y := Lower(s);
    if y != [] {
      assert LowerChar(UpperChar(y[0])) == y[0];
      assert Lower(Capitalize(y)) == y by {
        assert forall i :: 0 <= i < |y| ==> Lower(Capitalize(y))[i] == y[i];
      }
    }
  }

  /** Names that differ only in letter case select the same library entry. */
  lemma NormalizeIgnoresCase(s: string, t: string)
    requires |s| == |t|
    requires forall i :: 0 <= i < |s| ==> LowerChar(s[i]) == LowerChar(t[i])
    ensures Normalize(s) == Normalize(t)
  {
    assert Lower(s) == Lower(t);
  }

  lemma CobaltSpellings()
    ensures Normalize("CO-60") == "Co-60"
    ensures Normalize("Co-60") == "Co-60"
    ensures Normalize("co-60") == "Co-60"
  {
  }

  /** Seconds per half-life unit; a unit outside this table is refused. */
  const SecondsPerUnit: map<string, real> := map[
    "usecond" := 0.000001,
    "msecond" := 0.001,
    "second" := 1.0,
    "minute" := 60.0,
    "hour" := 3600.0,
    "day" := 86400.0,
    "year" := 31557600.0]

  /** `_convert_half_life`: the half-life in seconds. */
  function ConvertHalfLife(value: real, units: Option<string>): (r: Result<real>)
    ensures r.Ok? <==> units.Some? && units.value in SecondsPerUnit
    ensures r.Ok? ==> r.value == value * SecondsPerUnit[units.value]
    ensures r.Err? ==> r == Err(ValueError("Half-life units are not recognized"))
  {
    if units == Some("usecond") then Ok(value / 1000000.0)
    else if units == Some("msecond") then Ok(value / 1000.0)
    else if units == Some("second") then Ok(value)
    else if units == Some("minute") then Ok(value * 60.0)
    else if units == Some("hour") then Ok(value * 60.0 * 60.0)
    else if units == Some("day") then Ok(value * 60.0 * 60.0 * 24.0)
    else if units == Some("year") then Ok(value * 60.0 * 60.0 * 24.0 * 365.25)
    else Err(ValueError("Half-life units are not recognized"))
  }

  /** A longer half-life stays longer after conversion to seconds. */
  lemma ConvertHalfLifeMonotone(a: real, b: real, u: string)
    requires u in SecondsPerUnit
    requires a < b
    ensures ConvertHalfLife(a, Some(u)).value < ConvertHalfLife(b, Some(u)).value
  {
    assert SecondsPerUnit[u] > 0.0;
  }

  /** The constructor: a non-string or unknown name raises; the stored name is the library key. */
  function NewIsotope(lib: Library, name: Value): (r: Result<Isotope>)
    ensures !IsString(name) ==> r == Err(ValueError("Isotope name is not a string"))
    ensures IsString(name) && Normalize(name.s) !in lib ==>
      r == Err(ValueError("Isotope not found in the Isotope Library"))
    ensures r.Ok? <==>
      IsString(name) && Normalize(name.s) in lib &&
      ConvertHalfLife(lib[Normalize(name.s)].halfLife, lib[Normalize(name.s)].halfLifeUnits).Ok?
    ensures r.Ok? ==>
      var rec := lib[Normalize(name.s)];
      && r.value.name == Normalize(name.s)
      && r.value.photons == rec.photons
      && r.value.keyProgeny == rec.keyProgeny
      && r.value.halfLife == rec.halfLife * SecondsPerUnit[rec.halfLifeUnits.value]
  {
    if !IsString(name) then Err(ValueError("Isotope name is not a string"))
    else
      var key := Normalize(name.s);
      if key !in lib then Err(ValueError("Isotope not found in the Isotope Library"))
      else
        var rec := lib[key];
        var hl := ConvertHalfLife(rec.halfLife, rec.halfLifeUnits);
        if hl.Err? then Err(hl.error)
        else Ok(Isotope(key, hl.value, rec.keyProgeny, rec.photons))
  }
}
