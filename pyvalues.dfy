/**
 * The dynamically typed arguments the library validates with
 * `isinstance` checks.  A value is an int, a float, a bool, a string,
 * a list or tuple of values, or None.
 */
module PyValues {

  datatype Value =
    | Int(i: int)
    | Float(f: real)
    | Bool(b: bool)
    | Str(s: string)
    | Seq(items: seq<Value>)
    | NoneValue

  /** `isinstance(v, numbers.Number)`: bool is a subclass of int in Python. */
  predicate IsNumber(v: Value) {
    v.Int? || v.Float? || v.Bool?
  }

  /** `isinstance(v, int)`, which again includes bool. */
  predicate IsInt(v: Value) {
    v.Int? || v.Bool?
  }

  /** `isinstance(v, str)`. */
  predicate IsString(v: Value) {
    v.Str?
  }

  /** `isinstance(v, collections.abc.Iterable)` for the values modelled here. */
  predicate IsIterable(v: Value) {
    v.Str? || v.Seq?
  }

  /** `v == True`: equality with True holds for True itself and for the numbers equal to 1. */
  predicate EqualsTrue(v: Value) {
    v == Bool(true) || v == Int(1) || v == Float(1.0)
  }

  /** The numeric value of a number (True is 1 and False is 0). */
  function AsReal(v: Value): (r: real)
    requires IsNumber(v)
    ensures v.Int? ==> r == v.i as real
    ensures v.Float? ==> r == v.f
    ensures v.Bool? ==> r == if v.b then 1.0 else 0.0
  {
    match v
    case Int(i) => i as real
    case Float(f) => f
    case Bool(b) => if b then 1.0 else 0.0
  }

  /** The integer value of an int (True is 1 and False is 0). */
  function AsInt(v: Value): int
    requires IsInt(v)
  {
    match v
    case Int(i) => i
    case Bool(b) => if b then 1 else 0
  }

  /** The elements produced by iterating over `v`: the items of a list, the characters of a string. */
  function Elements(v: Value): (r: seq<Value>)
    requires IsIterable(v)
    ensures |r| == if v.Str? then |v.s| else |v.items|
  {
    if v.Str? then seq(|v.s|, i requires 0 <= i < |v.s| => Str([v.s[i]])) else v.items
  }

  /** Python compares a value with True by its numeric value: exactly the numbers worth 1 are equal to it. */
  lemma EqualsTrueIsOne(v: Value)
    ensures EqualsTrue(v) <==> IsNumber(v) && AsReal(v) == 1.0
  {
  }
}
