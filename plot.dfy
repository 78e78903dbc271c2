/**
 * The integer decisions of plot_2d_data: argument checks, defaults, the
 * subplot grid, which dynamics are shown and the figure size. Only the
 * array's shape takes part; the heatmaps themselves are not modelled.
 */
module Plot {
  import opened Wrappers
  import opened NdArray

  const MinSize: int := 600
  const MaxColumns: nat := 4
  /** Up to this many dynamics, every one of them is shown. */
  const AllDynamicsLimit: nat := 16
  const DefaultInterval: nat := 8
  /** Width and height of one panel in the dynamics layout. */
  const DynamicsPanelSize: nat := 200

  /** The exceptions plot_2d_data can raise. */
  datatype PlotError =
    | RotationAxes      // np.rot90's ValueError: axes (0, 1) of an array with fewer than two axes
    | EmptyData         // np.min of an array without elements
    | TooFewDimensions  // the ValueError of the 'slices' and 'dynamics' checks
    | IndexOutOfRange   // the IndexError of data[:, :, i, j]
    | UnknownPlotType   // neither branch ran, so `fig` is unbound at the return

  /** One subplot: its 1-based grid cell and the slice or dynamic index it shows. */
  datatype Subplot = Subplot(row: nat, col: nat, panel: nat)

  /**
   * The layout of the figure: grid size, the subplots in trace order, the
   * index held fixed on the other axis, and the pixel size.
   */
  datatype Figure = Figure(rows: nat, cols: nat, subplots: seq<Subplot>, fixedIndex: int, width: int, height: int)

  function Min(a: int, b: int): int { if a <= b then a else b }

  function Max(a: int, b: int): int { if a >= b then a else b }

  /** Number of rows, (count + cols - 1) // cols: the fewest rows whose cells hold count subplots. */
  function GridRows(count: nat, cols: nat): (rows: nat)
    requires cols > 0
    ensures count <= rows * cols < count + cols
  {
    var rows := (count + cols - 1) / cols;
    assert count + cols - 1 == rows * cols + (count + cols - 1) % cols;
    rows
  }

  /** The 1-based cell of subplot number k: row k // cols + 1, column k % cols + 1. */
  function CellOf(k: nat, cols: nat): (c: (nat, nat))
    requires cols > 0
  {
    (k / cols + 1, k % cols + 1)
  }

  /** Subplot k of count lies inside the grid of GridRows(count, cols) rows and cols columns. */
  lemma CellInGrid(k: nat, count: nat, cols: nat)
    requires cols > 0 && k < count
    ensures 1 <= CellOf(k, cols).0 <= GridRows(count, cols)
    ensures 1 <= CellOf(k, cols).1 <= cols
  {
    var rows := GridRows(count, cols);
    assert k == (k / cols) * cols + k % cols;
    if k / cols >= rows {
      MulMonotone(rows, k / cols, cols);
    }
  }

  /** Distinct subplots get distinct cells. */
  lemma CellInjective(j: nat, k: nat, cols: nat)
    requires cols > 0 && j != k
    ensures CellOf(j, cols) != CellOf(k, cols)
  {
    assert j == (j / cols) * cols + j % cols;
    assert k == (k / cols) * cols + k % cols;
  }

  /** All subplots sit in distinct cells of a rows x cols grid. */
  ghost predicate FitsGrid(subplots: seq<Subplot>, rows: nat, cols: nat)
  {
    && (forall k :: 0 <= k < |subplots| ==>
          1 <= subplots[k].row <= rows && 1 <= subplots[k].col <= cols)
    && (forall j, k :: 0 <= j < k < |subplots| ==>
          (subplots[j].row, subplots[j].col) != (subplots[k].row, subplots[k].col))
  }

  /**
   * The add_trace loop: panel number k goes to cell CellOf(k, cols), so the
   * subplots fill the grid row by row, each in a cell of its own.
   */
  method PlaceSubplots(panels: seq<nat>, cols: nat) returns (subplots: seq<Subplot>)
    requires cols > 0
    ensures |subplots| == |panels|
    ensures forall k :: 0 <= k < |panels| ==> subplots[k].panel == panels[k]
    ensures forall k :: 0 <= k < |panels| ==>
      (subplots[k].row, subplots[k].col) == CellOf(k, cols)
    ensures FitsGrid(subplots, GridRows(|panels|, cols), cols)
  {
    subplots := [];
    var k := 0;
    while k < |panels|
      invariant k <= |panels| && |subplots| == k
      invariant forall i :: 0 <= i < k ==> subplots[i].panel == panels[i]
      invariant forall i :: 0 <= i < k ==> (subplots[i].row, subplots[i].col) == CellOf(i, cols)
    {
      var cell := CellOf(k, cols);
      subplots := subplots + [Subplot(cell.0, cell.1, panels[k])];
      k := k + 1;
    }
    CellsFitGrid(subplots, cols);
  }

  /** Subplots placed by CellOf fill distinct cells of the grid for their number. */
  lemma CellsFitGrid(subplots: seq<Subplot>, cols: nat)
    requires cols > 0
    requires forall k :: 0 <= k < |subplots| ==> (subplots[k].row, subplots[k].col) == CellOf(k, cols)
    ensures FitsGrid(subplots, GridRows(|subplots|, cols), cols)
  {
    forall k | 0 <= k < |subplots|
      ensures 1 <= subplots[k].row <= GridRows(|subplots|, cols) && 1 <= subplots[k].col <= cols
    {
      CellInGrid(k, |subplots|, cols);
    }
    forall j, k | 0 <= j < k < |subplots|
      ensures (subplots[j].row, subplots[j].col) != (subplots[k].row, subplots[k].col)
    {
      CellInjective(j, k, cols);
    }
  }

  /** Python's range(start, stop, step) for a positive step. */
  function RangeStep(start: nat, stop: nat, step: nat): (r: seq<nat>)
    requires step > 0
    ensures forall k :: 0 <= k < |r| ==> r[k] == start + k * step && r[k] < stop
    ensures start + |r| * step >= stop
    ensures forall j, k :: 0 <= j < k < |r| ==> r[j] < r[k]
    decreases stop - start
  {
    if start >= stop then []
    else
      var rest := RangeStep(start + step, stop, step);
      var r := [start] + rest;
      assert forall k :: 1 <= k < |r| ==> r[k] == rest[k - 1];
      r
  }

  /** range(0, stop, step) holds exactly the multiples of step below stop. */
  lemma RangeMembers(stop: nat, step: nat, x: nat)
    requires step > 0
    ensures x in RangeStep(0, stop, step) <==> x < stop && x % step == 0
  {
    var r := RangeStep(0, stop, step);
    if x in r {
      var k :| 0 <= k < |r| && r[k] == x;
      DivModOfStride(k, step, 0);
    }
    if x < stop && x % step == 0 {
      var k := x / step;
      assert x == k * step;
      if k >= |r| {
        MulMonotone(|r|, k, step);
      }
      assert r[k] == x;
    }
  }

  /**
   * The dynamics plot_2d_data shows: strictly increasing, within [0, n),
   * starting with 0 and ending with n-1; all of them up to AllDynamicsLimit,
   * otherwise the multiples of the interval (DefaultInterval when the
   * interval is not positive) together with n-1.
   */
  ghost predicate Selected(indices: seq<nat>, numDynamics: nat, interval: int)
  {
    && |indices| > 0 && indices[0] == 0 && indices[|indices| - 1] == numDynamics - 1
    && (forall k :: 0 <= k < |indices| ==> indices[k] < numDynamics)
    && (forall j, k :: 0 <= j < k < |indices| ==> indices[j] < indices[k])
    && (numDynamics <= AllDynamicsLimit ==>
          |indices| == numDynamics && forall k :: 0 <= k < |indices| ==> indices[k] == k)
    && (numDynamics > AllDynamicsLimit ==>
          var step := if interval > 0 then interval else DefaultInterval;
          forall x: nat :: x in indices <==> x < numDynamics && (x % step == 0 || x == numDynamics - 1))
  }

  /**
   * The dynamics shown: all of them up to AllDynamicsLimit, otherwise every
   * interval-th one (a non-positive interval is replaced by DefaultInterval);
   * then 0 is put in front and the last dynamic appended when missing.
   */
  method SelectDynamics(numDynamics: nat, interval: int) returns (indices: seq<nat>)
    requires numDynamics >= 1
    ensures Selected(indices, numDynamics, interval)
  {
    var step: nat := 1;
    if numDynamics > AllDynamicsLimit {
      step := if interval > 0 then interval else DefaultInterval;
    }
    indices := RangeStep(0, numDynamics, step);
    ghost var range := indices;
    var first: nat := 0;
    if indices[0] != first {
      // never taken: range(0, ...) always starts at 0
      indices := [first] + indices;
    }
    if indices[|indices| - 1] != numDynamics - 1 {
      indices := indices + [numDynamics - 1];
    }
    assert indices == Completed(range, numDynamics - 1);
    SelectionProperties(numDynamics, interval, indices);
  }

  /** The step of the selection: 1 up to AllDynamicsLimit, then the interval or its default. */
  function SelectionStep(numDynamics: nat, interval: int): (step: nat)
    ensures step > 0
  {
    if numDynamics <= AllDynamicsLimit then 1
    else if interval > 0 then interval else DefaultInterval
  }

  lemma SelectionProperties(numDynamics: nat, interval: int, indices: seq<nat>)
    requires numDynamics >= 1
    requires indices == Completed(RangeStep(0, numDynamics, SelectionStep(numDynamics, interval)), numDynamics - 1)
    ensures Selected(indices, numDynamics, interval)
  {
    var step := SelectionStep(numDynamics, interval);
    SelectionInOrder(numDynamics, step);
    assert |indices| > 0 && indices[0] == 0 && indices[|indices| - 1] == numDynamics - 1;
    if numDynamics > AllDynamicsLimit {
      assert step == if interval > 0 then interval else DefaultInterval;
      SelectionMembers(numDynamics, step);
    } else {
      assert step == 1;
      SelectionAll(numDynamics);
    }
  }

  /** Appends last to a non-empty sequence unless it already ends with it. */
  function Completed(r: seq<nat>, last: nat): (c: seq<nat>)
    requires |r| > 0
    ensures |c| == |r| || |c| == |r| + 1
    ensures c[..|r|] == r && c[|c| - 1] == last
  {
    if r[|r| - 1] != last then r + [last] else r
  }

  lemma SelectionInOrder(n: nat, step: nat)
    requires n >= 1 && step > 0
    ensures var c := Completed(RangeStep(0, n, step), n - 1);
      && c[0] == 0
      && (forall k :: 0 <= k < |c| ==> c[k] < n)
      && (forall j, k :: 0 <= j < k < |c| ==> c[j] < c[k])
  {
    var r := RangeStep(0, n, step);
    var c := Completed(r, n - 1);
    assert r[0] == 0;
    if |c| == |r| + 1 {
      assert forall k :: 0 <= k < |r| ==> c[k] == r[k] && r[k] < n - 1;
    }
  }

  lemma SelectionMembers(n: nat, step: nat)
    requires n >= 1 && step > 0
    ensures forall x: nat :: x in Completed(RangeStep(0, n, step), n - 1) <==> x < n && (x % step == 0 || x == n - 1)
  {
    var r := RangeStep(0, n, step);
    var c := Completed(r, n - 1);
    forall x: nat
      ensures x in c <==> x < n && (x % step == 0 || x == n - 1)
    {
      RangeMembers(n, step, x);
      assert x in c <==> x in r || x == n - 1;
    }
  }

  lemma SelectionAll(n: nat)
    requires n >= 1
    ensures var c := Completed(RangeStep(0, n, 1), n - 1);
      |c| == n && forall k :: 0 <= k < |c| ==> c[k] == k
  {
    var r := RangeStep(0, n, 1);
    assert r[|r| - 1] == |r| - 1;
  }

  /** Python accepts index i into an axis of length n when -n <= i < n. */
  predicate InBounds(i: int, n: nat)
  {
    -(n as int) <= i < n
  }

  /** np.rot90 over axes (0, 1) exchanges the extents of the first two axes. */
  function Rotated(shape: seq<nat>): seq<nat>
    requires |shape| >= 2
  {
    [shape[1], shape[0]] + shape[2..]
  }

  /** Rotating keeps the element count, so the empty-data check gives the same answer either way. */
  lemma RotatedProduct(shape: seq<nat>)
    requires |shape| >= 2
    ensures Product(Rotated(shape)) == Product(shape)
  {
    var r := Rotated(shape);
    ProductOfTwoFirst(shape);
    ProductOfTwoFirst(r);
    MulSwap(shape[0], shape[1], Product(shape[2..]));
  }

  lemma ProductOfTwoFirst(s: seq<nat>)
    requires |s| >= 2
    ensures Product(s) == s[0] * (s[1] * Product(s[2..]))
  {
    assert s[1..][1..] == s[2..];
  }

  lemma MulSwap(a: nat, b: nat, c: nat)
    ensures b * (a * c) == a * (b * c)
  {
  }

  /** An array with at least one element has no empty axis. */
  lemma {:induction false} NonEmptyAxes(shape: seq<nat>, a: nat)
    requires Product(shape) > 0 && a < |shape|
    ensures shape[a] > 0
  {
    if a > 0 {
      NonEmptyAxes(shape[1..], a - 1);
    }
  }

  /** The shape plot_2d_data works on: rotated when asked and possible. */
  function Oriented(shape: seq<nat>, rotateXyAxes: bool): seq<nat>
  {
    if rotateXyAxes && |shape| >= 2 then Rotated(shape) else shape
  }

  /** The panels of the subplots, in subplot order. */
  function Panels(subplots: seq<Subplot>): seq<nat>
  {
    seq(|subplots|, k requires 0 <= k < |subplots| => subplots[k].panel)
  }

  /**
   * What every figure promises: at least MinSize each way, 1 to MaxColumns
   * columns, a grid without an empty row, each subplot in a cell of its own,
   * and subplot k in cell (k // cols + 1, k % cols + 1).
   */
  ghost predicate LaidOut(f: Figure)
  {
    && f.width >= MinSize && f.height >= MinSize
    && 1 <= f.cols <= MaxColumns
    && |f.subplots| <= f.rows * f.cols < |f.subplots| + f.cols
    && FitsGrid(f.subplots, f.rows, f.cols)
    && (forall k :: 0 <= k < |f.subplots| ==> (f.subplots[k].row, f.subplots[k].col) == CellOf(k, f.cols))
  }

  /** The 'slices' branch: every slice at one dynamic, d0 x d1 pixels per panel. */
  method PlotSlices(dims: seq<nat>, dynamicIdx: Option<int>) returns (r: Result<Figure, PlotError>)
    requires |dims| >= 3 && Product(dims) > 0
    ensures r.Err? <==> |dims| < 4 || !InBounds(dynamicIdx.GetOr(0), dims[3])
    ensures r.Err? ==> r.error == IndexOutOfRange
    ensures r.Ok? ==>
      var f := r.value;
      && LaidOut(f)
      && f.cols == Min(dims[2], MaxColumns)
      && Panels(f.subplots) == seq(dims[2], k requires 0 <= k < dims[2] => k as nat)
      && f.fixedIndex == dynamicIdx.GetOr(0)
      && f.width == Max(dims[0] * f.cols, MinSize)
      && f.height == Max(dims[1] * f.rows, MinSize)
  {
    var dynamic := dynamicIdx.GetOr(0);
    var numSlices := dims[2];
    NonEmptyAxes(dims, 2);
    var cols := Min(numSlices, MaxColumns);
    var rows := GridRows(numSlices, cols);
    // the first trace reads data[:, :, 0, dynamic]
    if |dims| < 4 || !InBounds(dynamic, dims[3]) {
      return Err(IndexOutOfRange);
    }
    var slices := seq(numSlices, i requires 0 <= i < numSlices => i as nat);
    var subplots := PlaceSubplots(slices, cols);
    assert Panels(subplots) == slices;
    r := Ok(Figure(rows, cols, subplots, dynamic, Max(dims[0] * cols, MinSize), Max(dims[1] * rows, MinSize)));
  }

  /** The 'dynamics' branch: the selected dynamics at one slice, 200 x 200 pixels per panel. */
  method PlotDynamics(dims: seq<nat>, sliceIdx: Option<int>, interval: int) returns (r: Result<Figure, PlotError>)
    requires |dims| >= 4 && Product(dims) > 0
    ensures r.Err? <==> !InBounds(sliceIdx.GetOr(0), dims[2])
    ensures r.Err? ==> r.error == IndexOutOfRange
    ensures r.Ok? ==>
      var f := r.value;
      && LaidOut(f)
      && f.cols == Min(dims[3], MaxColumns)
      && Selected(Panels(f.subplots), dims[3], interval)
      && f.fixedIndex == sliceIdx.GetOr(0)
      && f.width == Max(DynamicsPanelSize * f.cols, MinSize)
      && f.height == Max(DynamicsPanelSize * f.rows, MinSize)
  {
    var slice := sliceIdx.GetOr(0);
    var numDynamics := dims[3];
    NonEmptyAxes(dims, 3);
    var indices := SelectDynamics(numDynamics, interval);
    var cols := Min(numDynamics, MaxColumns);
    var rows := GridRows(|indices|, cols);
    // the first trace reads data[:, :, slice, 0]
    if !InBounds(slice, dims[2]) {
      return Err(IndexOutOfRange);
    }
    var subplots := PlaceSubplots(indices, cols);
    assert Panels(subplots) == indices;
    r := Ok(Figure(rows, cols, subplots, slice, Max(DynamicsPanelSize * cols, MinSize),
                   Max(DynamicsPanelSize * rows, MinSize)));
  }

  /**
   * plot_2d_data, reduced to its integer decisions on the array's shape.
   * 'slices' shows every slice at one dynamic; 'dynamics' shows the selected
   * dynamics at one slice. The checks fire in the source's order.
   */
  method Plot2dData(shape: seq<nat>, plotType: string := "slices", sliceIdx: Option<int> := None,
                    dynamicIdx: Option<int> := None, interval: int := DefaultInterval,
                    rotateXyAxes: bool := false) returns (r: Result<Figure, PlotError>)
    ensures r == Err(RotationAxes) <==> rotateXyAxes && |shape| < 2
    ensures var dims := Oriented(shape, rotateXyAxes);
      r == Err(EmptyData) <==> !(rotateXyAxes && |shape| < 2) && Product(dims) == 0
    ensures r == Err(EmptyData) <==> !(rotateXyAxes && |shape| < 2) && Product(shape) == 0
    ensures var dims := Oriented(shape, rotateXyAxes);
      var reached := !(rotateXyAxes && |shape| < 2) && Product(dims) != 0;
      && (r == Err(UnknownPlotType) <==> reached && plotType != "slices" && plotType != "dynamics")
      && (r == Err(TooFewDimensions) <==>
            (reached && ((plotType == "slices" && |dims| < 3) || (plotType == "dynamics" && |dims| < 4))))
      && (r == Err(IndexOutOfRange) <==>
            (reached &&
             ((plotType == "slices" && |dims| >= 3 && (|dims| < 4 || !InBounds(dynamicIdx.GetOr(0), dims[3])))
              || (plotType == "dynamics" && |dims| >= 4 && !InBounds(sliceIdx.GetOr(0), dims[2])))))
    ensures r.Ok? ==> LaidOut(r.value)
    ensures r.Ok? && plotType == "slices" ==>
      var dims := Oriented(shape, rotateXyAxes);
      var f := r.value;
      && f.cols == Min(dims[2], MaxColumns)
      && Panels(f.subplots) == seq(dims[2], k requires 0 <= k < dims[2] => k as nat)
      && f.fixedIndex == dynamicIdx.GetOr(0)
      && f.width == Max(dims[0] * f.cols, MinSize)
      && f.height == Max(dims[1] * f.rows, MinSize)
    ensures r.Ok? && plotType == "dynamics" ==>
      var dims := Oriented(shape, rotateXyAxes);
      var f := r.value;
      && f.cols == Min(dims[3], MaxColumns)
      && Selected(Panels(f.subplots), dims[3], interval)
      && f.fixedIndex == sliceIdx.GetOr(0)
      && f.width == Max(DynamicsPanelSize * f.cols, MinSize)
      && f.height == Max(DynamicsPanelSize * f.rows, MinSize)
  {
    var dims := shape;
    if rotateXyAxes {
      if |dims| < 2 {
        return Err(RotationAxes);
      }
      dims := Rotated(dims);
      RotatedProduct(shape);
    }
    // zmin = np.min(data) fails on an array without elements
    if Product(dims) == 0 {
      return Err(EmptyData);
    }
    if plotType == "slices" {
      if |dims| < 3 {
        return Err(TooFewDimensions);
      }
      r := PlotSlices(dims, dynamicIdx);
    } else if plotType == "dynamics" {
      if |dims| < 4 {
        return Err(TooFewDimensions);
      }
      r := PlotDynamics(dims, sliceIdx, interval);
    } else {
      r := Err(UnknownPlotType);
    }
  }
}
