/** The point at which exposure is calculated. */
module Detectors {
  import opened Wrappers
  import opened PyValues
  import opened Vectors

  /** An immutable detector location. */
  datatype Detector = Detector(x: real, y: real, z: real)
  {
    /** The read-only `location` tuple. */
    function Location(): Vec3 { Vec3(x, y, z) }
  }

  /** The constructor: all three coordinates must be numbers. */
  function NewDetector(x: Value, y: Value, z: Value): (r: Result<Detector>)
    ensures r.Ok? <==> IsNumber(x) && IsNumber(y) && IsNumber(z)
    ensures r.Err? ==> r.error.ValueError?
    ensures r.Ok? ==> r.value.Location() == Vec3(AsReal(x), AsReal(y), AsReal(z))
  {
    if IsNumber(x) && IsNumber(y) && IsNumber(z) then
      Ok(Detector(AsReal(x), AsReal(y), AsReal(z)))
    else
      Err(ValueError("Invalid coordinates"))
  }

  /** A detector at (1, 2, 3) reports that location; a string coordinate is refused. */
  lemma DetectorExamples()
    ensures NewDetector(Int(1), Int(2), Int(3)) == Ok(Detector(1.0, 2.0, 3.0))
    ensures NewDetector(Int(1), Int(2), Int(3)).value.Location() == Vec3(1.0, 2.0, 3.0)
    ensures NewDetector(Str("a"), Int(2), Int(3)).Err?
    ensures NewDetector(Int(1), Str("b"), Int(3)).Err?
    ensures NewDetector(Int(1), Int(2), Str("c")).Err?
  {
  }
}
