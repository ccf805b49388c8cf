/**
 * `Source.get_photon_source_list`: the photon lines of a source's isotopes
 * (and of their key progeny when asked for) and of its individually added
 * photons, merged into one emission rate per distinct energy in a
 * dictionary, sorted by energy, and grouped into at most 30 energy groups
 * when the grouping option asks for it.
 */
module Spectra {
  import opened Wrappers
  import opened PyValues
  import opened RealMath
  import opened Isotopes

  /** A photon line of a source: energy in MeV and emission rate in photons per second. */
  type Line = (real, real)

  /** The grouping options `"group"`, `"hybrid"` and `"discrete"`. */
  datatype GroupOption = Group | Hybrid | Discrete

  /** The number of energy groups, and the most lines the hybrid option leaves ungrouped. */
  const MaxEnergies: nat := 30

  /* ---------- rates ---------- */

  /** The summed emission rate of a list of lines. */
  function Total(ls: seq<Line>): real
  {
    if ls == [] then 0.0 else ls[0].1 + Total(ls[1..])
  }

  lemma {:induction false} TotalAppend(a: seq<Line>, b: seq<Line>)
    ensures Total(a + b) == Total(a) + Total(b)
  {
    if a != [] {
      assert (a + b)[1..] == a[1..] + b;
      TotalAppend(a[1..], b);
    } else {
      assert a + b == b;
    }
  }

  /** The summed rate of the lines of energy `e`. */
  function RateFor(ls: seq<Line>, e: real): real
  {
    if ls == [] then 0.0 else (if ls[0].0 == e then ls[0].1 else 0.0) + RateFor(ls[1..], e)
  }

  lemma {:induction false} RateForAppend(a: seq<Line>, b: seq<Line>, e: real)
    ensures RateFor(a + b, e) == RateFor(a, e) + RateFor(b, e)
  {
    if a != [] {
      assert (a + b)[1..] == a[1..] + b;
      RateForAppend(a[1..], b, e);
    } else {
      assert a + b == b;
    }
  }

  /** Some line has energy `e`. */
  predicate Has(ls: seq<Line>, e: real)
  {
    exists i :: 0 <= i < |ls| && ls[i].0 == e
  }

  /** No two lines share an energy: the items of a dictionary keyed by energy. */
  predicate DistinctEnergies(d: seq<Line>)
  {
    forall i, j :: 0 <= i < j < |d| ==> d[i].0 != d[j].0
  }

  /** In a dictionary, the rate of a key is the value stored under it. */
  lemma {:induction false} RateOfKey(d: seq<Line>, k: nat)
    requires DistinctEnergies(d) && k < |d|
    ensures RateFor(d, d[k].0) == d[k].1
  {
    if k == 0 {
      NoRateWithout(d[1..], d[0].0);
    } else {
      RateOfKey(d[1..], k - 1);
    }
  }

  lemma {:induction false} NoRateWithout(ls: seq<Line>, e: real)
    requires !Has(ls, e)
    ensures RateFor(ls, e) == 0.0
  {
    if ls != [] {
      TailLacks(ls, e);
      NoRateWithout(ls[1..], e);
    }
  }

  lemma TailLacks(ls: seq<Line>, e: real)
    requires ls != [] && !Has(ls, e)
    ensures !Has(ls[1..], e)
  {
    forall i | 0 <= i < |ls[1..]|
      ensures ls[1..][i].0 != e
    {
      assert ls[1..][i] == ls[i + 1];
    }
  }

  /** The first key of a dictionary is not among the others. */
  lemma HeadNotInTail(d: seq<Line>)
    requires d != [] && DistinctEnergies(d)
    ensures !Has(d[1..], d[0].0)
  {
    forall i | 0 <= i < |d[1..]|
      ensures d[1..][i].0 != d[0].0
    {
      assert d[1..][i] == d[i + 1];
    }
  }

  /** An energy of a list's tail is an energy of the list. */
  lemma HasTail(ls: seq<Line>, e: real)
    requires ls != []
    ensures Has(ls, e) <==> ls[0].0 == e || Has(ls[1..], e)
  {
    if Has(ls[1..], e) {
      var i :| 0 <= i < |ls[1..]| && ls[1..][i].0 == e;
      assert ls[i + 1].0 == e;
    }
    if Has(ls, e) && ls[0].0 != e {
      var i :| 0 <= i < |ls| && ls[i].0 == e;
      assert ls[1..][i - 1].0 == e;
    }
  }

  /* ---------- the dictionary ---------- */

  /**
   * `d[e] = d[e] + rate` for an energy that is already a key, otherwise
   * `d[e] = rate`, which adds the key last.
   */
  function AddRate(d: seq<Line>, line: Line): seq<Line>
  {
    if d == [] then [line]
    else if d[0].0 == line.0 then [(line.0, d[0].1 + line.1)] + d[1..]
    else [d[0]] + AddRate(d[1..], line)
  }

  /** Adding a line adds its rate to its energy's rate and to the total, and keeps the keys distinct. */
  lemma {:induction false} AddRateFacts(d: seq<Line>, line: Line)
    requires DistinctEnergies(d)
    ensures DistinctEnergies(AddRate(d, line))
    ensures forall e :: RateFor(AddRate(d, line), e) == RateFor(d, e) + (if line.0 == e then line.1 else 0.0)
    ensures forall e :: Has(AddRate(d, line), e) <==> Has(d, e) || e == line.0
    ensures Total(AddRate(d, line)) == Total(d) + line.1
  {
    var r := AddRate(d, line);
    if d == [] {
    } else if d[0].0 == line.0 {
      assert r[1..] == d[1..];
      forall e ensures Has(r, e) <==> Has(d, e) || e == line.0 {
        HasTail(r, e);
        HasTail(d, e);
      }
    } else {
      var rest := AddRate(d[1..], line);
      AddRateFacts(d[1..], line);
      assert r == [d[0]] + rest;
      assert r[1..] == rest;
      HeadNotInTail(d);
      forall i, j | 0 <= i < j < |r|
        ensures r[i].0 != r[j].0
      {
        if i == 0 {
          assert r[j] == rest[j - 1];
          assert Has(rest, r[j].0);
        }
      }
      forall e ensures Has(r, e) <==> Has(d, e) || e == line.0 {
        HasTail(r, e);
        HasTail(d, e);
      }
    }
  }

  /** The dictionary after adding the lines one after the other, from the first. */
  function Accumulate(d: seq<Line>, ls: seq<Line>): seq<Line>
  {
    if ls == [] then d else AddRate(Accumulate(d, ls[..|ls| - 1]), ls[|ls| - 1])
  }

  lemma LastSplit(ls: seq<Line>)
    requires ls != []
    ensures ls == ls[..|ls| - 1] + [ls[|ls| - 1]]
  {
  }

  /**
   * Accumulating lines into a dictionary keeps its keys distinct, makes
   * every line's energy a key, and adds each line's rate to its energy's
   * rate and to the total.
   */
  lemma {:induction false} AccumulateFacts(d: seq<Line>, ls: seq<Line>)
    requires DistinctEnergies(d)
    ensures DistinctEnergies(Accumulate(d, ls))
    ensures forall e :: RateFor(Accumulate(d, ls), e) == RateFor(d, e) + RateFor(ls, e)
    ensures forall e :: Has(Accumulate(d, ls), e) <==> Has(d, e) || Has(ls, e)
    ensures Total(Accumulate(d, ls)) == Total(d) + Total(ls)
  {
    if ls != [] {
      var init, last := ls[..|ls| - 1], ls[|ls| - 1];
      AccumulateFacts(d, init);
      AddRateFacts(Accumulate(d, init), last);
      LastSplit(ls);
      TotalAppend(init, [last]);
      LastLine(ls);
    }
  }

  /** The rates and energies of a list are those of all its lines but the last, plus the last. */
  lemma LastLine(ls: seq<Line>)
    requires ls != []
    ensures forall e :: RateFor(ls, e) == RateFor(ls[..|ls| - 1], e) + (if ls[|ls| - 1].0 == e then ls[|ls| - 1].1 else 0.0)
    ensures forall e :: Has(ls, e) <==> Has(ls[..|ls| - 1], e) || e == ls[|ls| - 1].0
  {
    var init, last := ls[..|ls| - 1], ls[|ls| - 1];
    LastSplit(ls);
    forall e ensures RateFor(ls, e) == RateFor(init, e) + (if last.0 == e then last.1 else 0.0) {
      RateForAppend(init, [last], e);
    }
    forall e ensures Has(ls, e) <==> Has(init, e) || e == last.0 {
      if Has(ls, e) && e != last.0 {
        var i :| 0 <= i < |ls| && ls[i].0 == e;
        assert init[i].0 == e;
      }
      if Has(init, e) {
        var i :| 0 <= i < |init| && init[i].0 == e;
        assert ls[i].0 == e;
      }
    }
  }

  /** Accumulating two lists one after the other is accumulating their concatenation. */
  lemma {:induction false} AccumulateAppend(d: seq<Line>, a: seq<Line>, b: seq<Line>)
    ensures Accumulate(d, a + b) == Accumulate(Accumulate(d, a), b)
  {
    if b != [] {
      assert (a + b)[..|a + b| - 1] == a + b[..|b| - 1];
      AccumulateAppend(d, a, b[..|b| - 1]);
    } else {
      assert a + b == a;
    }
  }

  /* ---------- sorting by energy ---------- */

  /** `line` placed before the first line whose energy is not smaller. */
  function InsertLine(line: Line, s: seq<Line>): seq<Line>
  {
    if s == [] then [line]
    else if line.0 <= s[0].0 then [line] + s
    else [s[0]] + InsertLine(line, s[1..])
  }

  /** `sorted()` of the dictionary's items: with distinct energies, tuples compare by energy. */
  function SortLines(s: seq<Line>): seq<Line>
  {
    if s == [] then [] else InsertLine(s[0], SortLines(s[1..]))
  }

  predicate Increasing(s: seq<Line>)
  {
    forall i, j :: 0 <= i < j < |s| ==> s[i].0 < s[j].0
  }

  lemma {:induction false} InsertLinePerm(line: Line, s: seq<Line>)
    ensures multiset(InsertLine(line, s)) == multiset(s) + multiset{line}
  {
    if s != [] && line.0 > s[0].0 {
      InsertLinePerm(line, s[1..]);
      assert s == [s[0]] + s[1..];
    }
  }

  lemma {:induction false} InsertLineTotal(line: Line, s: seq<Line>)
    ensures Total(InsertLine(line, s)) == line.1 + Total(s)
  {
    if s != [] && line.0 > s[0].0 {
      InsertLineTotal(line, s[1..]);
    }
  }

  lemma {:induction false} InsertLineHas(line: Line, s: seq<Line>, e: real)
    ensures Has(InsertLine(line, s), e) <==> Has(s, e) || e == line.0
  {
    var r := InsertLine(line, s);
    if s == [] {
      assert r[0].0 == line.0;
    } else if line.0 <= s[0].0 {
      assert r[1..] == s;
      HasTail(r, e);
    } else {
      InsertLineHas(line, s[1..], e);
      assert r[1..] == InsertLine(line, s[1..]);
      HasTail(r, e);
      HasTail(s, e);
    }
  }

  /** Every energy of `s` lies above `lo`. */
  predicate Above(lo: real, s: seq<Line>)
  {
    forall i :: 0 <= i < |s| ==> lo < s[i].0
  }

  lemma {:induction false} InsertLineAbove(line: Line, s: seq<Line>, lo: real)
    requires Above(lo, s) && lo < line.0
    ensures Above(lo, InsertLine(line, s))
  {
    if s != [] && line.0 > s[0].0 {
      InsertLineAbove(line, s[1..], lo);
      assert InsertLine(line, s)[1..] == InsertLine(line, s[1..]);
    }
  }

  lemma IncreasingCons(x: Line, s: seq<Line>)
    requires Increasing(s) && Above(x.0, s)
    ensures Increasing([x] + s)
  {
    var r := [x] + s;
    forall i, j | 0 <= i < j < |r|
      ensures r[i].0 < r[j].0
    {
      assert r[j] == s[j - 1];
      if 0 < i {
        assert r[i] == s[i - 1];
      }
    }
  }

  lemma {:induction false} InsertLineIncreasing(line: Line, s: seq<Line>)
    requires Increasing(s) && !Has(s, line.0)
    ensures Increasing(InsertLine(line, s))
  {
    if s == [] {
    } else if line.0 <= s[0].0 {
      assert line.0 != s[0].0;
      forall i | 0 <= i < |s|
        ensures line.0 < s[i].0
      {
        assert s[i].0 != line.0;
        if 0 < i {
          assert s[0].0 < s[i].0;
        }
      }
      IncreasingCons(line, s);
    } else {
      TailLacks(s, line.0);
      InsertLineIncreasing(line, s[1..]);
      forall i | 0 <= i < |s[1..]|
        ensures s[0].0 < s[1..][i].0
      {
        assert s[1..][i] == s[i + 1];
      }
      InsertLineAbove(line, s[1..], s[0].0);
      IncreasingCons(s[0], InsertLine(line, s[1..]));
    }
  }

  /** Sorting keeps the lines. */
  lemma {:induction false} SortLinesPerm(s: seq<Line>)
    ensures multiset(SortLines(s)) == multiset(s)
  {
    if s != [] {
      SortLinesPerm(s[1..]);
      InsertLinePerm(s[0], SortLines(s[1..]));
      assert s == [s[0]] + s[1..];
    }
  }

  /** Sorting keeps the total rate. */
  lemma {:induction false} SortLinesTotal(s: seq<Line>)
    ensures Total(SortLines(s)) == Total(s)
  {
    if s != [] {
      SortLinesTotal(s[1..]);
      InsertLineTotal(s[0], SortLines(s[1..]));
    }
  }

  lemma {:induction false} SortLinesHas(s: seq<Line>, e: real)
    ensures Has(SortLines(s), e) <==> Has(s, e)
  {
    if s != [] {
      SortLinesHas(s[1..], e);
      InsertLineHas(s[0], SortLines(s[1..]), e);
      HasTail(s, e);
    }
  }

  /** The items of a dictionary come out of sorting in strictly increasing energy order. */
  lemma {:induction false} SortLinesIncreasing(s: seq<Line>)
    requires DistinctEnergies(s)
    ensures Increasing(SortLines(s))
  {
    if s != [] {
      assert DistinctEnergies(s[1..]) by {
        forall i, j | 0 <= i < j < |s[1..]|
          ensures s[1..][i].0 != s[1..][j].0
        {
          assert s[1..][i] == s[i + 1] && s[1..][j] == s[j + 1];
        }
      }
      SortLinesIncreasing(s[1..]);
      HeadNotInTail(s);
      SortLinesHas(s[1..], s[0].0);
      InsertLineIncreasing(s[0], SortLines(s[1..]));
    }
  }

  /* ---------- grouping ---------- */

  /**
   * The bin edges `numpy.digitize` is given: the group energies
   * `lo + k * step`, k = 0..29, each raised by half a step, after one more
   * edge a step below the first of those.
   */
  function Edge(lo: real, step: real, j: nat): real
  {
    if j == 0 then (lo + step / 2.0) - step else lo + (j - 1) as real * step + step / 2.0
  }

  /** How many of the first `n` edges lie at or below `x`. */
  function EdgesBelow(x: real, lo: real, step: real, n: nat): nat
  {
    if n == 0 then 0 else EdgesBelow(x, lo, step, n - 1) + (if Edge(lo, step, n - 1) <= x then 1 else 0)
  }

  /** `numpy.digitize(x, edges)` for non-decreasing edges: the number of edges at or below `x`. */
  function BinOf(x: real, lo: real, step: real): nat
  {
    EdgesBelow(x, lo, step, MaxEnergies + 1)
  }

  lemma {:induction false} EdgesBelowBounds(x: real, lo: real, step: real, n: nat)
    ensures EdgesBelow(x, lo, step, n) <= n
    ensures 0 < n && Edge(lo, step, 0) <= x ==> 1 <= EdgesBelow(x, lo, step, n)
  {
    if n > 0 {
      EdgesBelowBounds(x, lo, step, n - 1);
    }
  }

  /**
   * With a positive step every energy from `lo` to `lo + 29 * step` falls
   * in one of the bins 1 to 30.
   */
  lemma BinInRange(x: real, lo: real, step: real)
    requires 0.0 < step && lo <= x <= lo + 29.0 * step
    ensures 1 <= BinOf(x, lo, step) <= MaxEnergies
  {
    EdgesBelowBounds(x, lo, step, MaxEnergies);
    EdgesBelowBounds(x, lo, step, MaxEnergies + 1);
    assert Edge(lo, step, MaxEnergies) == lo + 29.0 * step + step / 2.0;
  }

  /** With a zero step every edge equals `lo`, so `lo` itself is past all of them. */
  lemma {:induction false} FlatEdges(lo: real, n: nat)
    ensures EdgesBelow(lo, lo, 0.0, n) == n
  {
    if n > 0 {
      FlatEdges(lo, n - 1);
    }
  }

  /** The summed rate of the lines in bin `b`. */
  function BinRate(ls: seq<Line>, lo: real, step: real, b: nat): real
  {
    if ls == [] then 0.0
    else (if BinOf(ls[0].0, lo, step) == b then ls[0].1 else 0.0) + BinRate(ls[1..], lo, step, b)
  }

  /** The summed energy times rate of the lines in bin `b`. */
  function BinEnergy(ls: seq<Line>, lo: real, step: real, b: nat): real
  {
    if ls == [] then 0.0
    else (if BinOf(ls[0].0, lo, step) == b then ls[0].0 * ls[0].1 else 0.0) + BinEnergy(ls[1..], lo, step, b)
  }

  /** Group `b`'s row: the rate-weighted mean energy and the summed rate, or zeros for a group without rate. */
  function Row(ls: seq<Line>, lo: real, step: real, b: nat): Line
  {
    var c := BinRate(ls, lo, step, b);
    if c != 0.0 then (BinEnergy(ls, lo, step, b) / c, c) else (0.0, 0.0)
  }

  /** The rows of groups 1 to n. */
  function Rows(ls: seq<Line>, lo: real, step: real, n: nat): seq<Line>
  {
    if n == 0 then [] else Rows(ls, lo, step, n - 1) + [Row(ls, lo, step, n)]
  }

  /** `returnValue[np.all(returnValue, axis=1)]`: the rows with both entries non-zero. */
  function NonZero(rows: seq<Line>): seq<Line>
  {
    if rows == [] then []
    else (if rows[0].0 != 0.0 && rows[0].1 != 0.0 then [rows[0]] else []) + NonZero(rows[1..])
  }

  /**
   * The grouping as written: the first and last energies of the sorted
   * list span 30 group energies, each line goes to the bin `digitize`
   * gives it, and the groups with a rate are kept.  An empty list fails on
   * `photon_list[0]`.
   */
  function GroupLinesAsWritten(ls: seq<Line>): (r: Result<seq<Line>>)
    ensures r.Err? <==> ls == []
  {
    if ls == [] then Err(IndexError("list index out of range"))
    else
      var lo, hi := ls[0].0, ls[|ls| - 1].0;
      Ok(NonZero(Rows(ls, lo, (hi - lo) / 29.0, MaxEnergies)))
  }

  /**
   * The grouping with a single energy kept as its own group: with equal
   * first and last energies the step is 0, every edge equals that energy,
   * and `digitize` puts every line past the last group.
   */
  function GroupLines(ls: seq<Line>): (r: Result<seq<Line>>)
    ensures r.Err? <==> ls == []
  {
    if ls == [] then Err(IndexError("list index out of range"))
    else if ls[0].0 == ls[|ls| - 1].0 then Ok(ls)
    else GroupLinesAsWritten(ls)
  }

  /** Lines outside bin `b` leave it without rate or energy. */
  lemma {:induction false} EmptyBin(ls: seq<Line>, lo: real, step: real, b: nat)
    requires forall i :: 0 <= i < |ls| ==> BinOf(ls[i].0, lo, step) != b
    ensures BinRate(ls, lo, step, b) == 0.0 && BinEnergy(ls, lo, step, b) == 0.0
  {
    if ls != [] {
      EmptyBin(ls[1..], lo, step, b);
    }
  }

  lemma {:induction false} ZeroRows(ls: seq<Line>, lo: real, step: real, n: nat)
    requires forall b :: 1 <= b <= n ==> BinRate(ls, lo, step, b) == 0.0
    ensures NonZero(Rows(ls, lo, step, n)) == []
  {
    if n > 0 {
      ZeroRows(ls, lo, step, n - 1);
      NonZeroAppend(Rows(ls, lo, step, n - 1), [Row(ls, lo, step, n)]);
    }
  }

  lemma {:induction false} NonZeroAppend(a: seq<Line>, b: seq<Line>)
    ensures NonZero(a + b) == NonZero(a) + NonZero(b)
  {
    if a != [] {
      assert (a + b)[1..] == a[1..] + b;
      NonZeroAppend(a[1..], b);
    } else {
      assert a + b == b;
    }
  }

  /**
   * As written, a list whose lines all share one energy is grouped into
   * nothing: `digitize` gives each line bin 31, and only bins 1 to 30 are
   * collected.
   */
  lemma SingleEnergyVanishes(ls: seq<Line>)
    requires ls != [] && forall i :: 0 <= i < |ls| ==> ls[i].0 == ls[0].0
    ensures GroupLinesAsWritten(ls) == Ok([])
  {
    var lo := ls[0].0;
    var step := (ls[|ls| - 1].0 - lo) / 29.0;
    assert step == 0.0;
    FlatEdges(lo, MaxEnergies + 1);
    forall b | 1 <= b <= MaxEnergies
      ensures BinRate(ls, lo, step, b) == 0.0
    {
      EmptyBin(ls, lo, step, b);
    }
    ZeroRows(ls, lo, step, MaxEnergies);
  }

  /** The one-line spectrum of 100 photons/s at 1 MeV is grouped into an empty spectrum as written, and kept by the correction. */
  lemma SingleLineExample()
    ensures GroupLinesAsWritten([(1.0, 100.0)]) == Ok([])
    ensures GroupLines([(1.0, 100.0)]) == Ok([(1.0, 100.0)])
  {
    SingleEnergyVanishes([(1.0, 100.0)]);
  }

  predicate AllPositive(ls: seq<Line>)
  {
    forall i :: 0 <= i < |ls| ==> 0.0 < ls[i].0 && 0.0 < ls[i].1
  }

  /** With positive energies and rates, a bin has rate exactly when it has energy, and neither is negative. */
  lemma {:induction false} BinSigns(ls: seq<Line>, lo: real, step: real, b: nat)
    requires AllPositive(ls)
    ensures 0.0 <= BinRate(ls, lo, step, b) && 0.0 <= BinEnergy(ls, lo, step, b)
    ensures BinRate(ls, lo, step, b) == 0.0 <==> BinEnergy(ls, lo, step, b) == 0.0
  {
    if ls != [] {
      BinSigns(ls[1..], lo, step, b);
      if BinOf(ls[0].0, lo, step) == b {
        PositiveProduct(ls[0].0, ls[0].1);
      }
    }
  }

  /** The rate of bins 1 to n. */
  function BinsRate(ls: seq<Line>, lo: real, step: real, n: nat): real
  {
    if n == 0 then 0.0 else BinsRate(ls, lo, step, n - 1) + BinRate(ls, lo, step, n)
  }

  lemma {:induction false} BinsRateCons(ls: seq<Line>, lo: real, step: real, n: nat)
    requires ls != []
    ensures BinsRate(ls, lo, step, n) ==
      BinsRate(ls[1..], lo, step, n) + (if 1 <= BinOf(ls[0].0, lo, step) <= n then ls[0].1 else 0.0)
  {
    if n > 0 {
      BinsRateCons(ls, lo, step, n - 1);
    }
  }

  /** When every line falls in bins 1 to 30, the bins' rates add up to the total. */
  lemma {:induction false} BinsPartition(ls: seq<Line>, lo: real, step: real)
    requires forall i :: 0 <= i < |ls| ==> 1 <= BinOf(ls[i].0, lo, step) <= MaxEnergies
    ensures BinsRate(ls, lo, step, MaxEnergies) == Total(ls)
  {
    if ls == [] {
      ZeroBins(lo, step, MaxEnergies);
    } else {
      BinsRateCons(ls, lo, step, MaxEnergies);
      BinsPartition(ls[1..], lo, step);
    }
  }

  lemma {:induction false} ZeroBins(lo: real, step: real, n: nat)
    ensures BinsRate([], lo, step, n) == 0.0
  {
    if n > 0 {
      ZeroBins(lo, step, n - 1);
    }
  }

  /** With positive lines, the kept rows carry the rate of all bins 1 to n, at most one row per bin. */
  lemma {:induction false} KeptRows(ls: seq<Line>, lo: real, step: real, n: nat)
    requires AllPositive(ls)
    ensures Total(NonZero(Rows(ls, lo, step, n))) == BinsRate(ls, lo, step, n)
    ensures |NonZero(Rows(ls, lo, step, n))| <= n
    ensures AllPositive(NonZero(Rows(ls, lo, step, n)))
  {
    if n > 0 {
      KeptRows(ls, lo, step, n - 1);
      var before := NonZero(Rows(ls, lo, step, n - 1));
      var kept := NonZero([Row(ls, lo, step, n)]);
      NonZeroAppend(Rows(ls, lo, step, n - 1), [Row(ls, lo, step, n)]);
      RowKept(ls, lo, step, n);
      TotalAppend(before, kept);
      PositiveAppend(before, kept);
    }
  }

  /** The one row of bin `b` is kept exactly when the bin has rate, and then it is positive. */
  lemma RowKept(ls: seq<Line>, lo: real, step: real, b: nat)
    requires AllPositive(ls)
    ensures Total(NonZero([Row(ls, lo, step, b)])) == BinRate(ls, lo, step, b)
    ensures |NonZero([Row(ls, lo, step, b)])| <= 1
    ensures AllPositive(NonZero([Row(ls, lo, step, b)]))
  {
    var row := Row(ls, lo, step, b);
    NonZeroSingle(row);
    BinSigns(ls, lo, step, b);
    var c, w := BinRate(ls, lo, step, b), BinEnergy(ls, lo, step, b);
    if c != 0.0 {
      QuotientPositive(w, c);
    }
  }

  lemma NonZeroSingle(row: Line)
    ensures NonZero([row]) == if row.0 != 0.0 && row.1 != 0.0 then [row] else []
  {
    assert NonZero([row]) == (if row.0 != 0.0 && row.1 != 0.0 then [row] else []) + NonZero([]);
  }

  lemma QuotientPositive(w: real, c: real)
    requires 0.0 < w && 0.0 < c
    ensures 0.0 < w / c
  {
    var q := w / c;
    assert q * c == w;
    if q <= 0.0 {
      MulLeft(q, 0.0, c);
    }
  }

  lemma PositiveAppend(a: seq<Line>, b: seq<Line>)
    requires AllPositive(a) && AllPositive(b)
    ensures AllPositive(a + b)
  {
    forall i | 0 <= i < |a + b|
      ensures 0.0 < (a + b)[i].0 && 0.0 < (a + b)[i].1
    {
      if i >= |a| {
        assert (a + b)[i] == b[i - |a|];
      }
    }
  }

  /**
   * With positive energies and rates in increasing order, the corrected
   * grouping keeps the total emission rate, gives at most 30 groups, and
   * every group has a positive energy and rate.
   */
  lemma GroupingKeepsTotal(ls: seq<Line>)
    requires ls != [] && Increasing(ls) && AllPositive(ls)
    ensures GroupLines(ls).Ok?
    ensures Total(GroupLines(ls).value) == Total(ls)
    ensures |GroupLines(ls).value| <= MaxEnergies || GroupLines(ls).value == ls
    ensures AllPositive(GroupLines(ls).value)
  {
    var lo, hi := ls[0].0, ls[|ls| - 1].0;
    if lo != hi {
      var step := (hi - lo) / 29.0;
      assert lo + 29.0 * step == hi;
      forall i | 0 <= i < |ls|
        ensures 1 <= BinOf(ls[i].0, lo, step) <= MaxEnergies
      {
        assert lo <= ls[i].0 <= hi by {
          if 0 < i {
            assert ls[0].0 < ls[i].0;
          }
          if i < |ls| - 1 {
            assert ls[i].0 < ls[|ls| - 1].0;
          }
        }
        BinInRange(ls[i].0, lo, step);
      }
      BinsPartition(ls, lo, step);
      KeptRows(ls, lo, step, MaxEnergies);
    }
  }

  /* ---------- the isotope lines ---------- */

  /** A photon of yield `p.1` per decay at activity `bq`: its energy and emission rate. */
  function Emission(p: Photon, bq: real): Line
  {
    (p.0, p.1 * bq)
  }

  /** An isotope's lines at activity `bq`, one per photon of the isotope. */
  function IsotopeLines(photons: Option<seq<Photon>>, bq: real): (r: seq<Line>)
    ensures photons.None? ==> r == []
    ensures photons.Some? ==> (|r| == |photons.value|
                            && forall i :: 0 <= i < |r| ==> r[i] == Emission(photons.value[i], bq))
  {
    if photons.None? then []
    else
      var ps := photons.value;
      seq(|ps|, i requires 0 <= i < |ps| => Emission(ps[i], bq))
  }

  /** A key progeny of a parent at activity `bq`: its name and the parent's activity times its ratio. */
  function Daughter(kp: (string, real), bq: real): (string, real)
  {
    (kp.0, bq * kp.1)
  }

  /** An isotope's key progeny at the parent's activity `bq`. */
  function ProgenyOf(progeny: Option<seq<(string, real)>>, bq: real): (r: seq<(string, real)>)
    ensures progeny.None? ==> r == []
    ensures progeny.Some? ==> (|r| == |progeny.value|
                            && forall i :: 0 <= i < |r| ==> r[i] == Daughter(progeny.value[i], bq))
  {
    if progeny.None? then []
    else
      var ps := progeny.value;
      seq(|ps|, i requires 0 <= i < |ps| => Daughter(ps[i], bq))
  }

  /** The key progeny entries of a list of isotope entries, looking each parent up in turn. */
  function ProgenyEntries(lib: Library, entries: seq<(string, real)>): Result<seq<(string, real)>>
  {
    if entries == [] then Ok([])
    else
      var before :- ProgenyEntries(lib, entries[..|entries| - 1]);
      var iso :- NewIsotope(lib, Str(entries[|entries| - 1].0));
      Ok(before + ProgenyOf(iso.keyProgeny, entries[|entries| - 1].1))
  }

  /** The lines of a list of isotope entries, looking each isotope up in turn. */
  function Contributions(lib: Library, entries: seq<(string, real)>): Result<seq<Line>>
  {
    if entries == [] then Ok([])
    else
      var before :- Contributions(lib, entries[..|entries| - 1]);
      var iso :- NewIsotope(lib, Str(entries[|entries| - 1].0));
      Ok(before + IsotopeLines(iso.photons, entries[|entries| - 1].1))
  }

  /** The grouping applies for the group option, or for the hybrid one with more than 30 energies. */
  predicate Grouped(option: GroupOption, count: nat)
  {
    option == Group || (option == Hybrid && count > MaxEnergies)
  }

  /**
   * The lines before grouping: the isotope lines, then the individual
   * photons, merged in one dictionary keyed by energy, sorted.
   */
  function Merged(lines: seq<Line>, photons: seq<Line>): seq<Line>
  {
    SortLines(Accumulate(Accumulate([], lines), photons))
  }

  /**
   * The source's spectrum, or the error the first failing isotope lookup
   * raises; the key progeny are looked up for the source's own isotopes
   * only, and their own lines are then looked up like the isotopes'.
   */
  function Spectrum(lib: Library, isotopes: seq<(string, real)>, photons: seq<Line>, progeny: bool,
                    option: GroupOption): Result<seq<Line>>
  {
    var extra :- if progeny then ProgenyEntries(lib, isotopes) else Ok([]);
    var lines :- Contributions(lib, isotopes + extra);
    var merged := Merged(lines, photons);
    if Grouped(option, |merged|) then GroupLines(merged) else Ok(merged)
  }

  /** Every line of the sorted dictionary is one of its items. */
  lemma SortedItem(d: seq<Line>, k: nat) returns (j: nat)
    requires k < |SortLines(d)|
    ensures j < |d| && SortLines(d)[k] == d[j]
  {
    SortLinesPerm(d);
    assert SortLines(d)[k] in multiset(d);
    j :| 0 <= j < |d| && d[j] == SortLines(d)[k];
  }

  /**
   * Ungrouped, the spectrum has one line per distinct energy of the
   * isotope lines and the photons, in increasing energy order, each with
   * the summed rate of that energy; so the total rate is kept.
   */
  lemma MergedFacts(lines: seq<Line>, photons: seq<Line>)
    ensures var s := Merged(lines, photons);
      && Increasing(s)
      && (forall k :: 0 <= k < |s| ==> s[k].1 == RateFor(lines + photons, s[k].0))
      && (forall e :: Has(s, e) <==> Has(lines + photons, e))
      && Total(s) == Total(lines) + Total(photons)
  {
    var all := lines + photons;
    var d := Accumulate([], all);
    AccumulateAppend([], lines, photons);
    assert Merged(lines, photons) == SortLines(d);
    AccumulateFacts([], all);
    TotalAppend(lines, photons);
    SortLinesTotal(d);
    SortLinesIncreasing(d);
    var s := SortLines(d);
    forall k | 0 <= k < |s|
      ensures s[k].1 == RateFor(all, s[k].0)
    {
      var j := SortedItem(d, k);
      RateOfKey(d, j);
    }
    forall e ensures Has(s, e) <==> Has(all, e) {
      SortLinesHas(d, e);
    }
  }

  /**
   * A spectrum that is not grouped is the merged spectrum of the isotope
   * lines (with their key progeny when asked for) and the photons; grouped
   * with positive lines, it keeps the merged total in at most 30 groups.
   */
  lemma SpectrumFacts(lib: Library, isotopes: seq<(string, real)>, photons: seq<Line>, progeny: bool,
                      option: GroupOption, lines: seq<Line>)
    requires progeny ==> ProgenyEntries(lib, isotopes).Ok?
    requires Contributions(lib, isotopes + (if progeny then ProgenyEntries(lib, isotopes).value else [])) == Ok(lines)
    ensures var r := Spectrum(lib, isotopes, photons, progeny, option);
      var merged := Merged(lines, photons);
      && (!Grouped(option, |merged|) ==> r == Ok(merged))
      && (Grouped(option, |merged|) && merged != [] && AllPositive(merged) ==>
            r.Ok? && Total(r.value) == Total(lines) + Total(photons)
            && (|r.value| <= MaxEnergies || r.value == merged))
      && (Grouped(option, |merged|) && merged == [] ==> r == Err(IndexError("list index out of range")))
  {
    var merged := Merged(lines, photons);
    MergedFacts(lines, photons);
    if Grouped(option, |merged|) && merged != [] && AllPositive(merged) {
      GroupingKeepsTotal(merged);
    }
  }
}
