/**
 * The relative-tolerance comparators of the material-library validation
 * scripts: two lists (or two tables) of numbers agree when every pair of
 * entries is equal or differs by less than one part in a million,
 * relative to the reference entry (or to the candidate entry when the
 * reference entry is zero).
 */
module Comparators {
  import opened Wrappers
  import opened RealMath

  /** One part in a million. */
  const Tolerance: real := 0.000001

  /** The message of the IndexError a list raises for an index past its end. */
  const OutOfRange := "list index out of range"

  /** The divisor of the relative difference: the reference entry, or the candidate entry when the reference is zero. */
  function Denominator(first: real, second: real): (r: real)
    requires first != second
    ensures r != 0.0
    ensures first != 0.0 ==> r == first
  {
    if first != 0.0 then first else second
  }

  /** `abs((first - second) / denominator)` of two different entries. */
  function RelativeDifference(first: real, second: real): real
    requires first != second
  {
    Abs((first - second) / Denominator(first, second))
  }

  /** A reference entry and a candidate entry agree: equal, or within the tolerance. */
  predicate CellMatches(first: real, second: real)
  {
    first == second || RelativeDifference(first, second) < Tolerance
  }

  // ---------------------------------------------------------------------
  // compareSimpleLists
  // ---------------------------------------------------------------------

  /** Two lists agree when they have the same length and every pair of entries agrees. */
  predicate ListsMatch(reference: seq<real>, underTest: seq<real>)
  {
    |reference| == |underTest| && forall i :: 0 <= i < |reference| ==> CellMatches(reference[i], underTest[i])
  }

  /** `compareSimpleLists`: the length check, then the entries in order, stopping at the first disagreement. */
  method CompareSimpleLists(reference: seq<real>, underTest: seq<real>) returns (ok: bool)
    ensures ok == ListsMatch(reference, underTest)
  {
    if |reference| != |underTest| {
      return false;
    }
    for i := 0 to |reference|
      invariant forall k :: 0 <= k < i ==> CellMatches(reference[k], underTest[k])
    {
      var first := reference[i];
      var second := underTest[i];
      if first == second {
        continue;
      }
      var denominator := if first != 0.0 then first else second;
      var diff := Abs((first - second) / denominator);
      if diff >= Tolerance {
        return false;
      }
    }
    return true;
  }

  // ---------------------------------------------------------------------
  // compare2DLists
  // ---------------------------------------------------------------------

  /**
   * Row `i` can be read in its first `width` columns in both tables (no
   * cell is read at all when `width` is 0).
   */
  predicate RowReadable(reference: seq<seq<real>>, underTest: seq<seq<real>>, i: nat, width: nat)
  {
    width == 0 || (i < |reference| && i < |underTest| && width <= |reference[i]| && width <= |underTest[i]|)
  }

  /** The first `width` cells of row `i` agree. */
  predicate RowMatches(reference: seq<seq<real>>, underTest: seq<seq<real>>, i: nat, width: nat)
    requires RowReadable(reference, underTest, i, width)
  {
    forall j :: 0 <= j < width ==> CellMatches(reference[i][j], underTest[i][j])
  }

  /**
   * What `compare2DLists` returns or raises: an IndexError when the
   * reference has no first row, or when some row of either table is
   * shorter than that first row, or the candidate table has fewer rows
   * (unless the first row is empty, when no cell is read); otherwise
   * whether every cell agrees.  A candidate table with more rows than the
   * reference is not an error: its extra rows are never read.
   */
  function Table2D(reference: seq<seq<real>>, underTest: seq<seq<real>>): (r: Result<bool>)
  {
    if |reference| == 0 then Err(IndexError(OutOfRange))
    else
      var width := |reference[0]|;
      if exists i :: 0 <= i < |reference| && !RowReadable(reference, underTest, i, width) then Err(IndexError(OutOfRange))
      else Ok(forall i :: 0 <= i < |reference| ==> RowMatches(reference, underTest, i, width))
  }

  /**
   * `compare2DLists`: every cell of every row, in order, up to the width
   * of the first reference row; a disagreement clears the flag and the
   * scan goes on.
   */
  method Compare2DLists(reference: seq<seq<real>>, underTest: seq<seq<real>>) returns (r: Result<bool>)
    ensures r == Table2D(reference, underTest)
  {
    if |reference| == 0 {
      return Err(IndexError(OutOfRange));
    }
    var width := |reference[0]|;
    var result := true;
    for i := 0 to |reference|
      invariant forall k :: 0 <= k < i ==> RowReadable(reference, underTest, k, width)
      invariant result == forall k :: 0 <= k < i ==> RowMatches(reference, underTest, k, width)
    {
      ghost var before := result;
      for j := 0 to width
        invariant RowReadable(reference, underTest, i, j)
        invariant result == (before && RowMatches(reference, underTest, i, j))
      {
        if |reference[i]| <= j || |underTest| <= i || |underTest[i]| <= j {
          assert !RowReadable(reference, underTest, i, width);
          return Err(IndexError(OutOfRange));
        }
        var first := reference[i][j];
        var second := underTest[i][j];
        if first == second {
          continue;
        }
        var denominator := if first != 0.0 then first else second;
        var diff := Abs((first - second) / denominator);
        if diff >= Tolerance {
          result := false;
        }
      }
    }
    return Ok(result);
  }

  // ---------------------------------------------------------------------
  // Properties
  // ---------------------------------------------------------------------

  /** Every entry agrees with itself, so every list matches itself. */
  lemma ListMatchesItself(xs: seq<real>)
    ensures ListsMatch(xs, xs)
  {
  }

  /** Lists of different lengths never match, whatever their entries. */
  lemma LengthMismatch(reference: seq<real>, underTest: seq<real>)
    requires |reference| != |underTest|
    ensures !ListsMatch(reference, underTest)
  {
  }

  /**
   * With a non-zero reference entry, agreement means the difference is
   * below one millionth of the reference entry's magnitude.
   */
  lemma WithinTolerance(first: real, second: real)
    requires first != 0.0
    ensures CellMatches(first, second) <==> Abs(first - second) < Tolerance * Abs(first)
  {
    if first != second {
      var q := (first - second) / first;
      assert RelativeDifference(first, second) == Abs(q);
      assert first - second == q * first;
      ScaledBound(q, first, Tolerance);
    }
  }

  lemma ScaledBound(q: real, f: real, t: real)
    requires f != 0.0
    ensures Abs(q * f) < t * Abs(f) <==> Abs(q) < t
  {
    AbsProduct(q, f);
    MulStrict(Abs(q), t, Abs(f));
  }

  lemma AbsProduct(a: real, b: real)
    ensures Abs(a * b) == Abs(a) * Abs(b)
  {
    if a < 0.0 {
      assert a * b == -((-a) * b);
    }
    if b < 0.0 {
      assert a * b == -(a * (-b));
    }
  }

  lemma MulStrict(a: real, b: real, c: real)
    requires 0.0 < c
    ensures a < b <==> a * c < b * c
  {
    if a < b {
      PositiveProduct(b - a, c);
      assert b * c - a * c == (b - a) * c;
    } else {
      MulLeft(b, a, c);
    }
  }

  /** A zero reference entry matches only a zero candidate entry: the relative difference is then 1. */
  lemma ZeroReference(second: real)
    ensures CellMatches(0.0, second) <==> second == 0.0
  {
    if second != 0.0 {
      assert (0.0 - second) / second == -1.0;
    }
  }

  /**
   * The comparison is not symmetric: 1.0000010000001 against a reference
   * of 1.0 differs by a little more than one millionth and fails, while
   * 1.0 against a reference of 1.0000010000001 differs by a little less
   * and passes. Both margins are far above double rounding.
   */
  lemma Asymmetric()
    ensures !CellMatches(1.0, 1.0000010000001)
    ensures CellMatches(1.0000010000001, 1.0)
  {
    assert RelativeDifference(1.0, 1.0000010000001) == 0.0000010000001;
    assert (1.0000010000001 - 1.0) / 1.0000010000001 < 0.000001;
  }

  /** A one-row table of the same length compares exactly like the two lists. */
  lemma OneRowTable(reference: seq<real>, underTest: seq<real>)
    requires |reference| == |underTest|
    ensures Table2D([reference], [underTest]) == Ok(ListsMatch(reference, underTest))
  {
    var t, u := [reference], [underTest];
    assert RowReadable(t, u, 0, |reference|);
    if ListsMatch(reference, underTest) {
      assert RowMatches(t, u, 0, |reference|);
    } else {
      var j :| 0 <= j < |reference| && !CellMatches(reference[j], underTest[j]);
      assert !RowMatches(t, u, 0, |reference|);
    }
  }

  /** A table whose rows are all at least as wide as its first row matches itself. */
  lemma TableMatchesItself(table: seq<seq<real>>)
    requires |table| > 0 && forall i :: 0 <= i < |table| ==> |table[0]| <= |table[i]|
    ensures Table2D(table, table) == Ok(true)
  {
    var width := |table[0]|;
    assert forall i :: 0 <= i < |table| ==> RowReadable(table, table, i, width);
    assert forall i :: 0 <= i < |table| ==> RowMatches(table, table, i, width);
  }

  /**
   * Rows of the candidate table past the reference's are never read: the
   * row-count mismatch is reported but does not change the result.
   */
  lemma ExtraRowsIgnored(reference: seq<seq<real>>, underTest: seq<seq<real>>, extra: seq<seq<real>>)
    requires |reference| <= |underTest|
    ensures Table2D(reference, underTest + extra) == Table2D(reference, underTest)
  {
    if |reference| > 0 {
      var width := |reference[0]|;
      var longer := underTest + extra;
      forall i | 0 <= i < |reference|
        ensures RowReadable(reference, longer, i, width) == RowReadable(reference, underTest, i, width)
        ensures RowReadable(reference, underTest, i, width) ==>
          RowMatches(reference, longer, i, width) == RowMatches(reference, underTest, i, width)
      {
        assert longer[i] == underTest[i];
      }
    }
  }

  /** A table comparison fails exactly when some readable cell disagrees. */
  lemma TableFailure(reference: seq<seq<real>>, underTest: seq<seq<real>>)
    requires Table2D(reference, underTest).Ok?
    ensures !Table2D(reference, underTest).value <==>
      exists i, j :: 0 <= i < |reference| && i < |underTest| && 0 <= j < |reference[0]| &&
        j < |reference[i]| && j < |underTest[i]| && !CellMatches(reference[i][j], underTest[i][j])
  {
    var width := |reference[0]|;
    if !Table2D(reference, underTest).value {
      var i :| 0 <= i < |reference| && !RowMatches(reference, underTest, i, width);
      assert RowReadable(reference, underTest, i, width);
      var j :| 0 <= j < width && !CellMatches(reference[i][j], underTest[i][j]);
    } else {
      forall i, j | 0 <= i < |reference| && i < |underTest| && 0 <= j < width && j < |reference[i]| && j < |underTest[i]|
        ensures CellMatches(reference[i][j], underTest[i][j])
      {
        assert RowMatches(reference, underTest, i, width);
      }
    }
  }
}
