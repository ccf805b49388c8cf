/**
 * The quadrature points and weights of the line, box and cylinder
 * sources: midpoints of equal cells along each dimension, combined into a
 * product grid whose last dimension varies fastest, each point carrying an
 * equal share of the source.
 */
module Grids {
  import opened Wrappers
  import opened RealMath
  import opened Vectors
  import opened Geometry

  /* ---------- weights ---------- */

  /** `[1.0 / count] * count`: the uniform quadrature weights. */
  function UniformWeights(count: nat): seq<real>
    requires 0 < count
  {
    seq(count, _ => 1.0 / count as real)
  }

  /** The uniform weights are `count` equal shares that sum to 1. */
  lemma UniformWeightsSum(count: nat)
    requires 0 < count
    ensures |UniformWeights(count)| == count
    ensures forall i :: 0 <= i < count ==> UniformWeights(count)[i] == 1.0 / count as real
    ensures Sum(UniformWeights(count)) == 1.0
  {
    SumConstant(1.0 / count as real, count);
  }

  /** `numpy.prod` of the points per dimension; the product of no counts is the float 1.0. */
  function Product(ns: seq<int>): int
  {
    if ns == [] then 1 else Product(ns[..|ns| - 1]) * ns[|ns| - 1]
  }

  predicate PositiveCounts(ns: seq<int>)
  {
    forall i :: 0 <= i < |ns| ==> 0 < ns[i]
  }

  lemma {:induction false} ProductPositive(ns: seq<int>)
    requires PositiveCounts(ns)
    ensures 0 < Product(ns)
  {
    if ns != [] {
      ProductPositive(ns[..|ns| - 1]);
      PositiveIntProduct(Product(ns[..|ns| - 1]), ns[|ns| - 1]);
    }
  }

  lemma PositiveIntProduct(a: int, b: int)
    requires 0 < a && 0 < b
    ensures 0 < a * b
  {
  }

  /**
   * The uniform weights of a source with the given points per dimension:
   * one share per point of the product grid.  With no counts `numpy.prod`
   * gives the float 1.0, and a list cannot be repeated a float number of
   * times.
   */
  function Weights(counts: seq<int>): (r: Result<seq<real>>)
    requires PositiveCounts(counts)
    ensures counts == [] <==> r.Err?
    ensures r.Ok? ==> |r.value| == Product(counts) && Sum(r.value) == 1.0
  {
    if counts == [] then Err(TypeError("can't multiply sequence by non-int of type 'float'"))
    else
      ProductPositive(counts);
      UniformWeightsSum(Product(counts));
      Ok(UniformWeights(Product(counts)))
  }

  /* ---------- midpoints of equal cells ---------- */

  /** `n` values from `start` in steps of `step`. */
  function Nodes(start: real, step: real, n: nat): (r: seq<real>)
    ensures |r| == n
  {
    seq(n, i requires 0 <= i < n => start + step * i as real)
  }

  /** The midpoints of `n` equal cells dividing `[lo, lo + width]`. */
  function Cells(lo: real, width: real, n: nat): (r: seq<real>)
    requires 0 < n
    ensures |r| == n
  {
    var w := width / n as real;
    Nodes(lo + w / 2.0, w, n)
  }

  /** Every cell midpoint lies in `[lo, lo + width]`, strictly inside when the width is positive. */
  lemma CellsInside(lo: real, width: real, n: nat, i: nat)
    requires 0 < n && i < n && 0.0 <= width
    ensures lo <= Cells(lo, width, n)[i] <= lo + width
    ensures 0.0 < width ==> lo < Cells(lo, width, n)[i] < lo + width
  {
    var w := width / n as real;
    var a := w * i as real;
    assert w * n as real == width;
    assert 0.0 <= w;
    assert 0.0 < width ==> 0.0 < w;
    MulLeft(0.0, i as real, w);
    MulLeft(i as real, (n - 1) as real, w);
    assert w * (n - 1) as real == width - w;
    assert Cells(lo, width, n)[i] == lo + w / 2.0 + a;
    CellBounds(lo, width, w, a);
  }

  /** A midpoint `a` past the first half cell, with room for the last half cell, stays inside. */
  lemma CellBounds(lo: real, width: real, w: real, a: real)
    requires 0.0 <= w && 0.0 <= a <= width - w
    ensures lo <= lo + w / 2.0 + a <= lo + width
    ensures 0.0 < w ==> lo < lo + w / 2.0 + a < lo + width
  {
  }

  /** One cell is its own midpoint. */
  lemma SingleCell(lo: real, width: real)
    ensures Cells(lo, width, 1) == [lo + width / 2.0]
  {
  }

  /* ---------- product grids ---------- */

  /** `a * b` by repeated addition, which keeps the index arithmetic of the grids linear for the solver. */
  function Times(a: nat, b: nat): nat
  {
    if a == 0 then 0 else Times(a - 1, b) + b
  }

  lemma {:induction false} TimesIsProduct(a: nat, b: nat)
    ensures Times(a, b) == a * b
  {
    if a > 0 {
      TimesIsProduct(a - 1, b);
    }
  }

  /** An index `j * width + k` of row `j` lies before row `rows` when `j < rows`. */
  lemma {:induction false} RowBound(j: nat, rows: nat, width: nat, k: nat)
    requires j < rows && k < width
    ensures Times(j, width) + k < Times(rows, width)
  {
    if j < rows - 1 {
      RowBound(j, rows - 1, width, k);
    }
  }

  /** The points for one first and one second coordinate, over all third coordinates. */
  function Column(a: real, b: real, cs: seq<real>, place: (real, real, real) -> Vec3): (r: seq<Vec3>)
    ensures |r| == |cs|
  {
    if cs == [] then [] else Column(a, b, cs[..|cs| - 1], place) + [place(a, b, cs[|cs| - 1])]
  }

  /** The points for one first coordinate, second coordinate by second coordinate. */
  function Plane(a: real, bs: seq<real>, cs: seq<real>, place: (real, real, real) -> Vec3): (r: seq<Vec3>)
    ensures |r| == Times(|bs|, |cs|)
  {
    if bs == [] then [] else Plane(a, bs[..|bs| - 1], cs, place) + Column(a, bs[|bs| - 1], cs, place)
  }

  /** Three nested loops over the nodes of each dimension, the last one innermost. */
  function Grid(as_: seq<real>, bs: seq<real>, cs: seq<real>, place: (real, real, real) -> Vec3): (r: seq<Vec3>)
    ensures |r| == Times(|as_|, Times(|bs|, |cs|))
  {
    if as_ == [] then [] else Grid(as_[..|as_| - 1], bs, cs, place) + Plane(as_[|as_| - 1], bs, cs, place)
  }

  lemma {:induction false} ColumnIndex(a: real, b: real, cs: seq<real>, place: (real, real, real) -> Vec3, k: nat)
    requires k < |cs|
    ensures Column(a, b, cs, place)[k] == place(a, b, cs[k])
  {
    if k < |cs| - 1 {
      ColumnIndex(a, b, cs[..|cs| - 1], place, k);
    }
  }

  lemma {:induction false} PlaneIndex(a: real, bs: seq<real>, cs: seq<real>, place: (real, real, real) -> Vec3, j: nat, k: nat)
    requires j < |bs| && k < |cs|
    ensures Times(j, |cs|) + k < |Plane(a, bs, cs, place)|
    ensures Plane(a, bs, cs, place)[Times(j, |cs|) + k] == place(a, bs[j], cs[k])
  {
    var init := bs[..|bs| - 1];
    if j < |bs| - 1 {
      PlaneIndex(a, init, cs, place, j, k);
      RowBound(j, |bs| - 1, |cs|, k);
    } else {
      ColumnIndex(a, bs[j], cs, place, k);
    }
  }

  /** Entry `t` of the plane of node `i` sits at index `i * n + t` of the grid, `n` the size of a plane. */
  lemma {:induction false} GridPlane(as_: seq<real>, bs: seq<real>, cs: seq<real>, place: (real, real, real) -> Vec3,
                                     i: nat, t: nat)
    requires i < |as_| && t < Times(|bs|, |cs|)
    ensures Times(i, Times(|bs|, |cs|)) + t < |Grid(as_, bs, cs, place)|
    ensures Grid(as_, bs, cs, place)[Times(i, Times(|bs|, |cs|)) + t] == Plane(as_[i], bs, cs, place)[t]
  {
    var init := as_[..|as_| - 1];
    if i < |as_| - 1 {
      GridPlane(init, bs, cs, place, i, t);
      RowBound(i, |as_| - 1, Times(|bs|, |cs|), t);
    }
  }

  /** The grid has one point per combination of nodes. */
  lemma GridLength(as_: seq<real>, bs: seq<real>, cs: seq<real>, place: (real, real, real) -> Vec3)
    ensures |Grid(as_, bs, cs, place)| == |as_| * |bs| * |cs|
  {
    TripleProduct(|as_|, |bs|, |cs|);
  }

  lemma TripleProduct(a: nat, b: nat, c: nat)
    ensures Times(a, Times(b, c)) == a * b * c
  {
    TimesIsProduct(b, c);
    TimesIsProduct(a, b * c);
    assert a * (b * c) == a * b * c;
  }

  /** The row-major index of nodes `i`, `j`, `k` in a grid of `b` by `c` planes: `(i * b + j) * c + k`. */
  function Flat(i: nat, j: nat, k: nat, b: nat, c: nat): nat
  {
    Times(Times(i, b) + j, c) + k
  }

  lemma FlatIsRowMajor(i: nat, j: nat, k: nat, b: nat, c: nat)
    ensures Flat(i, j, k, b, c) == (i * b + j) * c + k
  {
    TimesIsProduct(i, b);
    TimesIsProduct(i * b + j, c);
  }

  /**
   * The point of nodes `i`, `j`, `k` sits at the row-major index
   * `(i * |bs| + j) * |cs| + k`: the grid lists the points with the last
   * dimension varying fastest.
   */
  lemma {:induction false} GridIndex(as_: seq<real>, bs: seq<real>, cs: seq<real>, place: (real, real, real) -> Vec3,
                  i: nat, j: nat, k: nat)
    requires i < |as_| && j < |bs| && k < |cs|
    ensures Flat(i, j, k, |bs|, |cs|) < |Grid(as_, bs, cs, place)|
    ensures Grid(as_, bs, cs, place)[Flat(i, j, k, |bs|, |cs|)] == place(as_[i], bs[j], cs[k])
  {
    GridNodeAt(as_, bs, cs, place, i, j, k);
    FlatIndex(i, j, k, |bs|, |cs|);
    SameIndex(Grid(as_, bs, cs, place), Times(i, Times(|bs|, |cs|)) + (Times(j, |cs|) + k), Flat(i, j, k, |bs|, |cs|),
              place(as_[i], bs[j], cs[k]));
  }

  lemma {:induction false} GridNodeAt(as_: seq<real>, bs: seq<real>, cs: seq<real>, place: (real, real, real) -> Vec3, i: nat, j: nat, k: nat)
    requires i < |as_| && j < |bs| && k < |cs|
    ensures Times(i, Times(|bs|, |cs|)) + (Times(j, |cs|) + k) < |Grid(as_, bs, cs, place)|
    ensures Grid(as_, bs, cs, place)[Times(i, Times(|bs|, |cs|)) + (Times(j, |cs|) + k)] == place(as_[i], bs[j], cs[k])
  {
    PlaneIndex(as_[i], bs, cs, place, j, k);
    RowBound(j, |bs|, |cs|, k);
    GridPlane(as_, bs, cs, place, i, Times(j, |cs|) + k);
  }

  lemma SameIndex(g: seq<Vec3>, x: nat, y: nat, v: Vec3)
    requires x == y && x < |g| && g[x] == v
    ensures y < |g| && g[y] == v
  {
  }

  lemma FlatIndex(i: nat, j: nat, k: nat, b: nat, c: nat)
    ensures Times(i, Times(b, c)) + (Times(j, c) + k) == Flat(i, j, k, b, c)
  {
    TimesIsProduct(b, c);
    TimesIsProduct(i, b * c);
    TimesIsProduct(j, c);
    FlatIsRowMajor(i, j, k, b, c);
    Regroup(i, j, k, b, c);
  }

  lemma Regroup(i: nat, j: nat, k: nat, b: nat, c: nat)
    ensures i * (b * c) + (j * c + k) == (i * b + j) * c + k
  {
    assert (i * b + j) * c == (i * b) * c + j * c;
    assert (i * b) * c == i * (b * c);
  }

  /** Every point of the grid is the placement of some combination of nodes. */
  lemma {:induction false} GridPoints(as_: seq<real>, bs: seq<real>, cs: seq<real>, place: (real, real, real) -> Vec3, p: Vec3)
    requires p in Grid(as_, bs, cs, place)
    ensures exists i, j, k :: 0 <= i < |as_| && 0 <= j < |bs| && 0 <= k < |cs| && p == place(as_[i], bs[j], cs[k])
  {
    var init := as_[..|as_| - 1];
    var a := as_[|as_| - 1];
    if p in Grid(init, bs, cs, place) {
      GridPoints(init, bs, cs, place, p);
      var i, j, k :| 0 <= i < |init| && 0 <= j < |bs| && 0 <= k < |cs| && p == place(init[i], bs[j], cs[k]);
      assert as_[i] == init[i];
    } else {
      assert p in Plane(a, bs, cs, place);
      var j, k := PlanePoint(a, bs, cs, place, p);
      assert p == place(as_[|as_| - 1], bs[j], cs[k]);
    }
  }

  lemma {:induction false} PlanePoint(a: real, bs: seq<real>, cs: seq<real>, place: (real, real, real) -> Vec3, p: Vec3)
    returns (j: nat, k: nat)
    requires p in Plane(a, bs, cs, place)
    ensures j < |bs| && k < |cs| && p == place(a, bs[j], cs[k])
  {
    var init := bs[..|bs| - 1];
    if p in Plane(a, init, cs, place) {
      j, k := PlanePoint(a, init, cs, place, p);
    } else {
      j := |bs| - 1;
      var c := Column(a, bs[j], cs, place);
      assert p in c;
      var t :| 0 <= t < |c| && c[t] == p;
      ColumnIndex(a, bs[j], cs, place, t);
      k := t;
    }
  }

  /** The three nested loops that build a product grid. */
  method BuildGrid(as_: seq<real>, bs: seq<real>, cs: seq<real>, place: (real, real, real) -> Vec3) returns (points: seq<Vec3>)
    ensures points == Grid(as_, bs, cs, place)
  {
    points := [];
    for i := 0 to |as_|
      invariant points == Grid(as_[..i], bs, cs, place)
    {
      assert as_[..i + 1][..i] == as_[..i];
      points := PlaneLoop(points, as_[i], bs, cs, place);
    }
    assert as_[..|as_|] == as_;
  }

  /** The middle loop: the points of one first coordinate appended to `prefix`. */
  method PlaneLoop(prefix: seq<Vec3>, a: real, bs: seq<real>, cs: seq<real>, place: (real, real, real) -> Vec3)
    returns (points: seq<Vec3>)
    ensures points == prefix + Plane(a, bs, cs, place)
  {
    points := prefix;
    for j := 0 to |bs|
      invariant points == prefix + Plane(a, bs[..j], cs, place)
    {
      assert bs[..j + 1][..j] == bs[..j];
      points := ColumnLoop(points, a, bs[j], cs, place);
    }
    assert bs[..|bs|] == bs;
  }

  /** The innermost loop: the points of one first and one second coordinate appended to `prefix`. */
  method ColumnLoop(prefix: seq<Vec3>, a: real, b: real, cs: seq<real>, place: (real, real, real) -> Vec3)
    returns (points: seq<Vec3>)
    ensures points == prefix + Column(a, b, cs, place)
  {
    points := prefix;
    for k := 0 to |cs|
      invariant points == prefix + Column(a, b, cs[..k], place)
    {
      assert cs[..k + 1][..k] == cs[..k];
      points := points + [place(a, b, cs[k])];
    }
    assert cs[..|cs|] == cs;
  }

  /* ---------- box sources ---------- */

  function Point(x: real, y: real, z: real): Vec3 { Vec3(x, y, z) }

  /** The cell midpoints of a box divided into `nx` by `ny` by `nz` equal cells. */
  function BoxGrid(b: Box, nx: nat, ny: nat, nz: nat): seq<Vec3>
    requires 0 < nx && 0 < ny && 0 < nz
  {
    var lo := b.Low();
    Grid(Cells(lo.x, b.dimensions.x, nx), Cells(lo.y, b.dimensions.y, ny), Cells(lo.z, b.dimensions.z, nz), Point)
  }

  /**
   * `BoxSource._get_source_points`: three counts are required; the
   * points are the cell midpoints, x outermost and z innermost.
   */
  method BoxPoints(b: Box, counts: seq<int>) returns (r: Result<seq<Vec3>>)
    requires PositiveCounts(counts)
    ensures |counts| != 3 <==> r == Err(ValueError("Source Points per Dimension needs three entries"))
    ensures |counts| == 3 ==> r == Ok(BoxGrid(b, counts[0], counts[1], counts[2]))
  {
    if |counts| != 3 {
      return Err(ValueError("Source Points per Dimension needs three entries"));
    }
    var lo := b.Low();
    var xs := Cells(lo.x, b.dimensions.x, counts[0]);
    var ys := Cells(lo.y, b.dimensions.y, counts[1]);
    var zs := Cells(lo.z, b.dimensions.z, counts[2]);
    var points := BuildGrid(xs, ys, zs, Point);
    return Ok(points);
  }

  /** A box of non-negative dimensions holds all `nx * ny * nz` of its grid points. */
  lemma BoxGridInside(b: Box, nx: nat, ny: nat, nz: nat)
    requires 0 < nx && 0 < ny && 0 < nz
    requires 0.0 <= b.dimensions.x && 0.0 <= b.dimensions.y && 0.0 <= b.dimensions.z
    ensures |BoxGrid(b, nx, ny, nz)| == nx * ny * nz
    ensures forall p :: p in BoxGrid(b, nx, ny, nz) ==> BoxContains(b, p)
  {
    var lo := b.Low();
    var xs, ys, zs := Cells(lo.x, b.dimensions.x, nx), Cells(lo.y, b.dimensions.y, ny), Cells(lo.z, b.dimensions.z, nz);
    GridLength(xs, ys, zs, Point);
    forall p | p in BoxGrid(b, nx, ny, nz)
      ensures BoxContains(b, p)
    {
      GridPoints(xs, ys, zs, Point, p);
      var i, j, k :| 0 <= i < nx && 0 <= j < ny && 0 <= k < nz && p == Point(xs[i], ys[j], zs[k]);
      CellsInside(lo.x, b.dimensions.x, nx, i);
      CellsInside(lo.y, b.dimensions.y, ny, j);
      CellsInside(lo.z, b.dimensions.z, nz, k);
    }
  }

  /**
   * The point of cells `i`, `j`, `k` is the midpoint of that cell, at the
   * row-major index `(i * ny + j) * nz + k` (`FlatIsRowMajor`).
   */
  lemma BoxGridIndex(b: Box, nx: nat, ny: nat, nz: nat, i: nat, j: nat, k: nat)
    requires 0 < nx && 0 < ny && 0 < nz && i < nx && j < ny && k < nz
    ensures Flat(i, j, k, ny, nz) < |BoxGrid(b, nx, ny, nz)|
    ensures BoxGrid(b, nx, ny, nz)[Flat(i, j, k, ny, nz)] ==
      Vec3(Cells(b.Low().x, b.dimensions.x, nx)[i], Cells(b.Low().y, b.dimensions.y, ny)[j],
           Cells(b.Low().z, b.dimensions.z, nz)[k])
  {
    var lo := b.Low();
    GridIndex(Cells(lo.x, b.dimensions.x, nx), Cells(lo.y, b.dimensions.y, ny), Cells(lo.z, b.dimensions.z, nz), Point, i, j, k);
  }

  /** One point per dimension gives the box's center alone. */
  lemma BoxGridCenter(b: Box)
    ensures BoxGrid(b, 1, 1, 1) == [b.center]
  {
    var lo := b.Low();
    var xs, ys, zs := Cells(lo.x, b.dimensions.x, 1), Cells(lo.y, b.dimensions.y, 1), Cells(lo.z, b.dimensions.z, 1);
    SingleCell(lo.x, b.dimensions.x);
    SingleCell(lo.y, b.dimensions.y);
    SingleCell(lo.z, b.dimensions.z);
    assert xs[..0] == [] && ys[..0] == [] && zs[..0] == [];
    assert Column(xs[0], ys[0], zs, Point) == [Point(xs[0], ys[0], zs[0])];
    assert Plane(xs[0], ys, zs, Point) == Column(xs[0], ys[0], zs, Point);
    assert Grid(xs, ys, zs, Point) == Plane(xs[0], ys, zs, Point);
  }

  /* ---------- line sources ---------- */

  /** `linspace(1, n, n) * w - w / 2` with `w = length / n`: the distances of the line's points from its start. */
  function Spacings(length: real, n: nat): (r: seq<real>)
    requires 0 < n
    ensures |r| == n
  {
    var w := length / n as real;
    seq(n, i requires 0 <= i < n => (i + 1) as real * w - w / 2.0)
  }

  /** The spacings are the midpoints of `n` equal cells along the line: `(i + 1/2) * length / n`. */
  lemma SpacingsAreCells(length: real, n: nat)
    requires 0 < n
    ensures Spacings(length, n) == Cells(0.0, length, n)
  {
    var w := length / n as real;
    forall i | 0 <= i < n
      ensures Spacings(length, n)[i] == Cells(0.0, length, n)[i]
    {
      assert (i + 1) as real * w == w * i as real + w;
    }
  }

  /** The point a distance `d` along the line from `start`. */
  function Along(start: Vec3, dir: Vec3, d: real): Vec3
  {
    Add(start, Scale(dir, d))
  }

  /** The `n` points of a line source. */
  function LineGrid(start: Vec3, dir: Vec3, length: real, n: nat): seq<Vec3>
    requires 0 < n
  {
    seq(n, i requires 0 <= i < n => Along(start, dir, Spacings(length, n)[i]))
  }

  /** `LineSource._get_source_points`: a point at each spacing along the unit direction from the start. */
  method LinePoints(start: Vec3, dir: Vec3, length: real, counts: seq<int>) returns (r: Result<seq<Vec3>>)
    requires PositiveCounts(counts)
    ensures counts == [] <==> r == Err(IndexError("list index out of range"))
    ensures counts != [] ==> r == Ok(LineGrid(start, dir, length, counts[0])) && |r.value| == counts[0]
    ensures counts != [] ==> forall i :: 0 <= i < |r.value| ==>
      r.value[i] == Along(start, dir, Spacings(length, counts[0])[i])
  {
    if counts == [] {
      return Err(IndexError("list index out of range"));
    }
    var spacings := Spacings(length, counts[0]);
    var points: seq<Vec3> := [];
    for i := 0 to |spacings|
      invariant |points| == i
      invariant forall t :: 0 <= t < i ==> points[t] == Along(start, dir, spacings[t])
    {
      points := points + [Along(start, dir, spacings[i])];
    }
    assert |spacings| == counts[0];
    assert points == LineGrid(start, dir, length, counts[0]);
    return Ok(points);
  }

  /**
   * With the unit direction of a line of positive length, every point lies
   * on the segment: it is `start + (end - start) * f` with `0 < f < 1`.
   */
  lemma LinePointsOnSegment(start: Vec3, end: Vec3, length: real, n: nat, i: nat)
    requires 0.0 < length && 0 < n && i < n
    ensures var s := Spacings(length, n)[i];
      && 0.0 < s / length < 1.0
      && Along(start, DivScalar(Sub(end, start), length), s) == Add(start, Scale(Sub(end, start), s / length))
  {
    SpacingsAreCells(length, n);
    CellsInside(0.0, length, n, i);
    var s := Spacings(length, n)[i];
    var v := Sub(end, start);
    UnitFraction(s, length);
    assert s / length != 0.0 && s / length != 1.0 by {
      var f := s / length;
      assert f * length == s;
    }
    ScaleQuotient(v.x, length, s);
    ScaleQuotient(v.y, length, s);
    ScaleQuotient(v.z, length, s);
  }

  lemma ScaleQuotient(a: real, l: real, s: real)
    requires l != 0.0
    ensures (a / l) * s == a * (s / l)
  {
    DivMulSwap(a, s, l);
    DivMulSwap(s, a, l);
  }

  /* ---------- cylinder sources ---------- */

  /**
   * The outer radius of the first `k` equal-area rings,
   * `sqrt((running_area + annular_area) / pi)` with `k - 1` rings already
   * counted; 0 before the first ring.
   */
  function RingRadius(m: Math, pi: real, annular: real, k: nat): real
    requires pi != 0.0
  {
    if k == 0 then 0.0 else m.sqrt(RingsArea(k, annular) / pi)
  }

  /** The area of `k` rings. */
  function RingsArea(k: nat, annular: real): real
  {
    k as real * annular
  }

  /** The area of one of `n` equal rings of a disc of radius `radius`, `pi * radius**2 / n`. */
  function RingArea(pi: real, radius: real, n: nat): real
    requires 0 < n
  {
    pi * (radius * radius) / n as real
  }

  /** The radial nodes: the mean of the inner and outer radius of each ring. */
  function RadialNodes(m: Math, pi: real, radius: real, n: nat): (r: seq<real>)
    requires pi != 0.0 && 0 < n
    ensures |r| == n
  {
    var a := RingArea(pi, radius, n);
    seq(n, i requires 0 <= i < n => (RingRadius(m, pi, a, i + 1) + RingRadius(m, pi, a, i)) / 2.0)
  }

  /** `(r cos t, r sin t, z)`: cylindrical to rectangular coordinates. */
  function Polar(m: Math): (real, real, real) -> Vec3
  {
    (r, t, z) => Vec3(r * m.cos(t), r * m.sin(t), z)
  }

  /**
   * `_generic_cylinder_source_points` for a Z-aligned cylinder centred on
   * the origin: radial, angular and axial nodes, radius outermost.
   */
  function CylinderGrid(m: Math, pi: real, nr: nat, nt: nat, nz: nat, length: real, radius: real): seq<Vec3>
    requires pi != 0.0 && 0 < nr && 0 < nt && 0 < nz
  {
    Grid(RadialNodes(m, pi, radius, nr), Cells(0.0, 2.0 * pi, nt), Cells(-(length / 2.0), length, nz), Polar(m))
  }

  /** The loop over the rings: each new outer radius from the running area, each node the mean of two radii. */
  method RadialNodeLoop(m: Math, pi: real, radius: real, n: nat) returns (radial: seq<real>)
    requires pi != 0.0 && 0 < n
    ensures radial == RadialNodes(m, pi, radius, n)
  {
    var annular := pi * (radius * radius) / n as real;
    var oldRadius := 0.0;
    var running := 0.0;
    radial := [];
    for i := 0 to n
      invariant |radial| == i
      invariant running == RingsArea(i, annular)
      invariant oldRadius == RingRadius(m, pi, annular, i)
      invariant forall t :: 0 <= t < i ==> radial[t] == RadialNodes(m, pi, radius, n)[t]
    {
      var newRadius := m.sqrt((running + annular) / pi);
      assert running + annular == RingsArea(i + 1, annular);
      assert newRadius == RingRadius(m, pi, annular, i + 1);
      radial := radial + [(newRadius + oldRadius) / 2.0];
      oldRadius := newRadius;
      running := running + annular;
    }
  }

  /** A loop appending `start + i * increment` for `i` in `0 .. n - 1`. */
  method NodeLoop(start: real, increment: real, n: nat) returns (nodes: seq<real>)
    ensures nodes == Nodes(start, increment, n)
  {
    nodes := [];
    for i := 0 to n
      invariant |nodes| == i
      invariant forall t :: 0 <= t < i ==> nodes[t] == Nodes(start, increment, n)[t]
    {
      nodes := nodes + [start + i as real * increment];
    }
  }

  /** The node loops of `_generic_cylinder_source_points`, then the three nested loops over them. */
  method GenericCylinderPoints(m: Math, pi: real, nr: nat, nt: nat, nz: nat, length: real, radius: real)
    returns (points: seq<Vec3>)
    requires pi != 0.0 && 0 < nr && 0 < nt && 0 < nz
    ensures points == CylinderGrid(m, pi, nr, nt, nz, length, radius)
  {
    var radial := RadialNodeLoop(m, pi, radius, nr);
    var angleIncrement := 2.0 * pi / nt as real;
    var angles := NodeLoop(angleIncrement / 2.0, angleIncrement, nt);
    assert angles == Cells(0.0, 2.0 * pi, nt);
    var lengthIncrement := length / nz as real;
    var axial := NodeLoop(-(length / 2.0) + lengthIncrement / 2.0, lengthIncrement, nz);
    assert axial == Cells(-(length / 2.0), length, nz);
    points := BuildGrid(radial, angles, axial, Polar(m));
  }

  lemma AreaCancel(k: real, pi: real, s: real, n: real)
    requires pi != 0.0 && n != 0.0
    ensures k * (pi * s / n) / pi == k * s / n
  {
    var q := pi * s / n;
    assert q == pi * (s / n);
    assert k * q == pi * (k * (s / n));
    assert k * (s / n) == k * s / n;
  }

  /** The `k`-th ring radius is the square root of `k / n` of the radius squared. */
  lemma RingRadiusIs(m: Math, pi: real, radius: real, n: nat, k: nat)
    requires 0.0 < pi && 0 < n && 0 < k
    ensures RingRadius(m, pi, RingArea(pi, radius, n), k) == m.sqrt(Share(k, radius * radius, n))
  {
    RingsAreaShare(k, pi, radius, n);
  }

  /** `k` rings cover `k / n` of the disc's area. */
  lemma RingsAreaShare(k: nat, pi: real, radius: real, n: nat)
    requires 0.0 < pi && 0 < n
    ensures RingsArea(k, RingArea(pi, radius, n)) / pi == Share(k, radius * radius, n)
  {
    AreaCancel(k as real, pi, radius * radius, n as real);
  }

  lemma RingShare(k: real, s: real, n: real)
    requires 0.0 <= k && 0.0 <= s && 0.0 < n
    ensures 0.0 <= k * s / n
  {
    MulLeft(0.0, k, s);
    assert k * s / n == (k * s) * (1.0 / n);
    MulLeft(0.0, k * s, 1.0 / n);
  }

  /** `k / n` of an area `s`. */
  function Share(k: nat, s: real, n: nat): real
    requires 0 < n
  {
    k as real * s / n as real
  }

  /** The share of `k` rings out of `n` of an area `s` grows with `k` and is never negative. */
  lemma ShareStep(k: nat, s: real, n: nat)
    requires 0.0 <= s && 0 < n
    ensures 0.0 <= Share(k, s, n) <= Share(k + 1, s, n)
  {
    RingShare(k as real, s, n as real);
    RingShare(1.0, s, n as real);
    assert (k + 1) as real * s / n as real == k as real * s / n as real + s / n as real;
  }

  /**
   * The ring radii are the equal-area radii: the `k`-th is `sqrt(k / n) * radius`,
   * that is its square is `k / n` of the radius squared.
   */
  lemma RingRadiusSquare(m: Math, pi: real, radius: real, n: nat, k: nat)
    requires m.SqrtExact() && 0.0 < pi && 0 < n
    ensures var rk := RingRadius(m, pi, RingArea(pi, radius, n), k);
      0.0 <= rk && rk * rk == Share(k, radius * radius, n)
  {
    if k > 0 {
      RingRadiusIs(m, pi, radius, n, k);
      ShareStep(k, radius * radius, n);
      SqrtZeroIff(m, Share(k, radius * radius, n));
    }
  }

  /** The outer radius of the last ring is the cylinder's radius. */
  lemma OuterRingRadius(m: Math, pi: real, radius: real, n: nat)
    requires m.SqrtExact() && 0.0 < pi && 0.0 <= radius && 0 < n
    ensures RingRadius(m, pi, RingArea(pi, radius, n), n) == radius
  {
    RingRadiusIs(m, pi, radius, n, n);
    assert Share(n, radius * radius, n) == radius * radius;
    SqrtOfSquare(m, radius);
  }

  /** Ring radii grow with the number of rings. */
  lemma RingRadiusMonotone(m: Math, pi: real, radius: real, n: nat, k: nat)
    requires m.SqrtExact() && 0.0 < pi && 0 < n
    ensures RingRadius(m, pi, RingArea(pi, radius, n), k) <= RingRadius(m, pi, RingArea(pi, radius, n), k + 1)
  {
    ShareStep(k, radius * radius, n);
    RingRadiusIs(m, pi, radius, n, k + 1);
    if k == 0 {
      SqrtZeroIff(m, Share(k + 1, radius * radius, n));
    } else {
      RingRadiusIs(m, pi, radius, n, k);
      SqrtMonotone(m, Share(k, radius * radius, n), Share(k + 1, radius * radius, n));
    }
  }

  /** No ring radius exceeds the last one. */
  lemma RingRadiiUpTo(m: Math, pi: real, radius: real, n: nat, k: nat)
    requires m.SqrtExact() && 0.0 < pi && 0.0 <= radius && 0 < n && k <= n
    ensures RingRadius(m, pi, RingArea(pi, radius, n), k) <= radius
    decreases n - k
  {
    if k < n {
      RingRadiusMonotone(m, pi, radius, n, k);
      RingRadiiUpTo(m, pi, radius, n, k + 1);
    } else {
      OuterRingRadius(m, pi, radius, n);
    }
  }

  /**
   * Each radial node lies between the inner and outer radius of its ring,
   * so within the cylinder's radius.
   */
  lemma RadialNodeInside(m: Math, pi: real, radius: real, n: nat, i: nat)
    requires m.SqrtExact() && 0.0 < pi && 0.0 <= radius && i < n
    ensures var a := RingArea(pi, radius, n);
      RingRadius(m, pi, a, i) <= RadialNodes(m, pi, radius, n)[i] <= RingRadius(m, pi, a, i + 1) <= radius
  {
    RingRadiusMonotone(m, pi, radius, n, i);
    RingRadiiUpTo(m, pi, radius, n, i + 1);
  }

  /** The grid has `nr * nt * nz` points. */
  lemma CylinderGridCount(m: Math, pi: real, nr: nat, nt: nat, nz: nat, length: real, radius: real)
    requires pi != 0.0 && 0 < nr && 0 < nt && 0 < nz
    ensures |CylinderGrid(m, pi, nr, nt, nz, length, radius)| == nr * nt * nz
  {
    GridLength(RadialNodes(m, pi, radius, nr), Cells(0.0, 2.0 * pi, nt), Cells(-(length / 2.0), length, nz), Polar(m));
  }

  /** The Y-aligned rotation: y replaced by z, and z by -y. */
  function ToYAxis(p: Vec3): Vec3 { Vec3(p.x, p.z, -p.y) }

  /** The X-aligned rotation: x replaced by z, and z by -x. */
  function ToXAxis(p: Vec3): Vec3 { Vec3(p.z, p.y, -p.x) }

  /** A generic point placed for a cylinder along axis 0 (x), 1 (y) or 2 (z) whose middle is `mid`. */
  function Placed(axis: nat, p: Vec3, mid: Vec3): Vec3
    requires axis < 3
  {
    if axis == 0 then Add(ToXAxis(p), mid) else if axis == 1 then Add(ToYAxis(p), mid) else Add(p, mid)
  }

  /**
   * Placing a point turns the generic z coordinate into the coordinate
   * along the cylinder's axis and keeps the squared distance from the axis.
   */
  lemma PlacedAlongAxis(axis: nat, p: Vec3, mid: Vec3)
    requires axis < 3
    ensures var q := Sub(Placed(axis, p, mid), mid);
      && At(q, axis) == p.z
      && (axis == 0 ==> q.y * q.y + q.z * q.z == p.x * p.x + p.y * p.y)
      && (axis == 1 ==> q.x * q.x + q.z * q.z == p.x * p.x + p.y * p.y)
      && (axis == 2 ==> q.x * q.x + q.y * q.y == p.x * p.x + p.y * p.y)
  {
    var q := Sub(Placed(axis, p, mid), mid);
    if axis == 0 {
      assert q == Vec3(p.z, p.y, -p.x);
    } else if axis == 1 {
      assert q == Vec3(p.x, p.z, -p.y);
    } else {
      assert q == p;
    }
  }

  /** The middle of a cylinder's axis, `(origin + end) / 2`. */
  function Middle(c: Cylinder): Vec3
  {
    DivScalar(Add(c.origin, c.end), 2.0)
  }

  /**
   * The X-, Y- and Z-aligned cylinder sources' points: three counts are
   * required, and each generic point is rotated onto the axis and shifted
   * to the cylinder's middle.
   */
  function AlignedCylinderPoints(m: Math, pi: real, axis: nat, c: Cylinder, counts: seq<int>): (r: Result<seq<Vec3>>)
    requires pi != 0.0 && axis < 3 && PositiveCounts(counts)
    ensures |counts| != 3 <==> r == Err(ValueError("Source Points per Dimension needs three entries"))
  {
    if |counts| != 3 then Err(ValueError("Source Points per Dimension needs three entries"))
    else
      var g := CylinderGrid(m, pi, counts[0], counts[1], counts[2], c.length, c.radius);
      Ok(seq(|g|, i requires 0 <= i < |g| => Placed(axis, g[i], Middle(c))))
  }

  /**
   * `_get_source_points` of the X-, Y- and Z-aligned cylinder sources, with
   * the Z-aligned shift corrected.
   */
  method CylinderPoints(m: Math, pi: real, axis: nat, c: Cylinder, counts: seq<int>) returns (r: Result<seq<Vec3>>)
    requires pi != 0.0 && axis < 3 && PositiveCounts(counts)
    ensures r == AlignedCylinderPoints(m, pi, axis, c, counts)
  {
    if |counts| != 3 {
      return Err(ValueError("Source Points per Dimension needs three entries"));
    }
    var g := GenericCylinderPoints(m, pi, counts[0], counts[1], counts[2], c.length, c.radius);
    var mid := Middle(c);
    return Ok(seq(|g|, i requires 0 <= i < |g| => Placed(axis, g[i], mid)));
  }

  /** An entry of a Python list: a point tuple, or a bare float. */
  datatype Entry = PointEntry(point: Vec3) | Scalar(value: real)

  /**
   * `ZAlignedCylinderSource._get_source_points` as written: `list += array`
   * extends the list of points with the three coordinates of the middle
   * instead of shifting each point.
   */
  function ZCylinderPointsAsWritten(m: Math, pi: real, c: Cylinder, counts: seq<int>): Result<seq<Entry>>
    requires pi != 0.0 && PositiveCounts(counts)
  {
    if |counts| != 3 then Err(ValueError("Source Points per Dimension needs three entries"))
    else
      var g := CylinderGrid(m, pi, counts[0], counts[1], counts[2], c.length, c.radius);
      var mid := Middle(c);
      Ok(seq(|g|, i requires 0 <= i < |g| => PointEntry(g[i])) + [Scalar(mid.x), Scalar(mid.y), Scalar(mid.z)])
  }

  /**
   * As written, a Z-aligned cylinder source yields its unshifted generic
   * points followed by three bare numbers, where the corrected version
   * yields the same number of points, each shifted by the middle; so for
   * any cylinder whose middle is not the origin every as-written point is
   * misplaced.
   */
  lemma ZCylinderShiftLost(m: Math, pi: real, c: Cylinder, counts: seq<int>)
    requires pi != 0.0 && PositiveCounts(counts) && |counts| == 3
    ensures var w := ZCylinderPointsAsWritten(m, pi, c, counts).value;
      var r := AlignedCylinderPoints(m, pi, 2, c, counts).value;
      && |w| == |r| + 3
      && w[|r|] == Scalar(Middle(c).x) && w[|r| + 1] == Scalar(Middle(c).y) && w[|r| + 2] == Scalar(Middle(c).z)
      && (forall i :: 0 <= i < |r| ==> w[i].PointEntry? && r[i] == Add(w[i].point, Middle(c)))
      && (Middle(c) != Vec3(0.0, 0.0, 0.0) ==> forall i :: 0 <= i < |r| ==> w[i].point != r[i])
  {
  }

  /** The corrected Z-aligned points all lie `Middle(c)` away from the generic points, and there are `nr * nt * nz` of them. */
  lemma ZCylinderPointsShifted(m: Math, pi: real, c: Cylinder, counts: seq<int>)
    requires pi != 0.0 && PositiveCounts(counts) && |counts| == 3
    ensures var g := CylinderGrid(m, pi, counts[0], counts[1], counts[2], c.length, c.radius);
      var r := AlignedCylinderPoints(m, pi, 2, c, counts).value;
      && |r| == counts[0] * counts[1] * counts[2]
      && forall i :: 0 <= i < |r| ==> Sub(r[i], Middle(c)) == g[i]
  {
    CylinderGridCount(m, pi, counts[0], counts[1], counts[2], c.length, c.radius);
    var g := CylinderGrid(m, pi, counts[0], counts[1], counts[2], c.length, c.radius);
    var r := AlignedCylinderPoints(m, pi, 2, c, counts).value;
    forall i | 0 <= i < |r|
      ensures Sub(r[i], Middle(c)) == g[i]
    {
      assert r[i] == Add(g[i], Middle(c));
    }
  }
}
