/** Placing demodulated orders on the global grid and merging them pixel by pixel. */
module Merge {
  import opened Numeric
  import opened Bins
  import opened LogGrid
  import opened MergePixel
  import opened DemodulationGroup

  /** A demodulated order with the blaze weight of each of its samples. */
  datatype OrderProduct = OrderProduct(wavelength: seq<real>, samples: seq<Sample>, dq: seq<Quality>, blaze: seq<real>) {
    predicate Shaped() { |samples| == |dq| == |blaze| == |wavelength| }
  }

  // ---------------------------------------------------------------------- placement

  predicate AllAccepted(grid: seq<real>, wavelength: seq<real>) {
    forall k :: 0 <= k < |wavelength| ==> Accepts(grid, wavelength[k])
  }

  /** Index at which an order starts in the grid; none when the merge rejects the order. */
  function Place(grid: seq<real>, wavelength: seq<real>): (start: Option<int>)
    ensures start.Some? ==> 0 <= start.value <= start.value + |wavelength| <= |grid|
  {
    if wavelength == [] || !AllAccepted(grid, wavelength) then None
    else
      var start, last := SearchSorted(grid, wavelength[0]), SearchSorted(grid, wavelength[|wavelength| - 1]);
      assert Accepts(grid, wavelength[|wavelength| - 1]);
      if last + 1 - start == |wavelength| then Some(start) else None
  }

  /** An order grid cut from the global grid is never rejected, and lands where it was cut. */
  lemma {:induction false} SliceIsAccepted(grid: seq<real>, part: seq<real>, start: int, stop: int)
    requires StrictlyIncreasing(grid) && SliceOf(part, grid, start, stop) && part != []
    ensures Place(grid, part) == Some(start)
  {
    forall k | 0 <= k < |part|
      ensures Accepts(grid, part[k]) && SearchSorted(grid, part[k]) == start + k
    {
      SliceIsPlaced(grid, part, start, stop, k);
    }
  }

  // -------------------------------------------------- what else is accepted at the frozen step

  /** How many grid points lie below w. */
  function PointsBelow(grid: seq<real>, w: real): (n: nat)
    ensures n <= |grid|
  {
    if grid == [] then 0 else PointsBelow(grid[1..], w) + (if grid[0] < w then 1 else 0)
  }

  lemma {:induction false} NoneBelow(grid: seq<real>, w: real)
    requires forall i :: 0 <= i < |grid| ==> grid[i] >= w
    ensures PointsBelow(grid, w) == 0
  {
    if grid != [] {
      NoneBelow(grid[1..], w);
    }
  }

  lemma {:induction false} SearchCounts(grid: seq<real>, w: real)
    requires StrictlyIncreasing(grid)
    ensures SearchSorted(grid, w) == PointsBelow(grid, w)
  {
    if grid != [] {
      if grid[0] >= w {
        NoneBelow(grid, w);
      } else {
        SearchCounts(grid[1..], w);
      }
    }
  }

  /** At the frozen step an order is placed exactly when all its wavelengths lie between just below the first grid point
      and the last one, and there are as many grid points from its first to its last wavelength as it has samples. None of
      its wavelengths needs to be a grid point. */
  lemma {:induction false} PlacedIff(grid: seq<real>, wavelength: seq<real>)
    requires IsFrozen(grid)
    ensures Place(grid, wavelength).Some? <==>
      && wavelength != []
      && (forall k :: 0 <= k < |wavelength| ==> Lowest(grid[0]) <= wavelength[k] <= grid[|grid| - 1])
      && PointsBelow(grid, wavelength[|wavelength| - 1]) + 1 - PointsBelow(grid, wavelength[0]) == |wavelength|
  {
    forall k | 0 <= k < |wavelength|
      ensures Accepts(grid, wavelength[k]) <==> Lowest(grid[0]) <= wavelength[k] <= grid[|grid| - 1]
    {
      AcceptsIff(grid, wavelength[k]);
    }
    if wavelength != [] {
      SearchCounts(grid, wavelength[0]);
      SearchCounts(grid, wavelength[|wavelength| - 1]);
    }
  }

  lemma {:induction false} CellIndex(grid: seq<real>, a: int, w: real)
    requires StrictlyIncreasing(grid) && 0 < a < |grid| && grid[a - 1] < w <= grid[a]
    ensures SearchSorted(grid, w) == a
  {
    assert forall i :: 0 <= i < a ==> grid[i] <= grid[a - 1];
  }

  /** In particular every order with one wavelength in each of consecutive grid cells is placed there, wherever in the
      cells its wavelengths lie. */
  lemma {:induction false} CellwiseIsPlaced(grid: seq<real>, wavelength: seq<real>, start: int)
    requires IsFrozen(grid) && wavelength != [] && 0 < start <= start + |wavelength| <= |grid|
    requires forall k :: 0 <= k < |wavelength| ==> grid[start + k - 1] < wavelength[k] <= grid[start + k]
    ensures Place(grid, wavelength) == Some(start)
  {
    LowestIsBelow(grid[0]);
    forall k | 0 <= k < |wavelength|
      ensures Accepts(grid, wavelength[k]) && SearchSorted(grid, wavelength[k]) == start + k
    {
      assert grid[0] <= grid[start + k - 1] && grid[start + k] <= grid[|grid| - 1];
      AcceptsIff(grid, wavelength[k]);
      CellIndex(grid, start + k, wavelength[k]);
    }
  }

  /** An order on the midpoints of the grid shares no point with it, and is placed as if it did. */
  lemma {:induction false} MisalignedIsPlaced(grid: seq<real>)
    requires IsFrozen(grid) && |grid| >= 3
    ensures var order := [(grid[0] + grid[1]) / 2.0, (grid[1] + grid[2]) / 2.0];
      Place(grid, order) == Some(1) && order[0] !in grid && order[1] !in grid
  {
    var order := [(grid[0] + grid[1]) / 2.0, (grid[1] + grid[2]) / 2.0];
    CellwiseIsPlaced(grid, order, 1);
    MidpointIsNoPoint(grid, 0);
    MidpointIsNoPoint(grid, 1);
  }

  lemma {:induction false} MidpointIsNoPoint(grid: seq<real>, k: nat)
    requires StrictlyIncreasing(grid) && k + 1 < |grid|
    ensures (grid[k] + grid[k + 1]) / 2.0 !in grid
  {
    var m := (grid[k] + grid[k + 1]) / 2.0;
    assert grid[k] < m < grid[k + 1];
    forall i | 0 <= i < |grid|
      ensures grid[i] != m
    {
      assert i < k ==> grid[i] < grid[k];
      assert i > k + 1 ==> grid[k + 1] < grid[i];
    }
  }

  // ----------------------------------------------------------------- scattered columns

  datatype Field = Intensity | Polarization | Null1 | Null2

  function CellOf(s: Sample, field: Field, blaze: real): Cell {
    match field
    case Intensity => Cell(s.intensity, s.varianceI, blaze)
    case Polarization => Cell(s.polarization, s.varianceP, blaze)
    case Null1 => Cell(s.null1, s.variance1, blaze)
    case Null2 => Cell(s.null2, s.variance2, blaze)
  }

  datatype Pair = P1 | P2 | N12

  function First(pair: Pair): Field { if pair.N12? then Null1 else Polarization }

  function Second(pair: Pair): Field { if pair.P1? then Null1 else Null2 }

  function CovarianceOf(s: Sample, pair: Pair): Num {
    match pair
    case P1 => s.c01
    case P2 => s.c02
    case N12 => s.c12
  }

  predicate Inside(order: OrderProduct, start: int, g: int) { start <= g < start + |order.wavelength| }

  const OUTSIDE: Cell := Cell(Missing, Missing, 0.0)

  function CellAt(order: OrderProduct, start: int, field: Field, g: int): Cell
    requires order.Shaped()
  {
    if Inside(order, start, g) then CellOf(order.samples[g - start], field, order.blaze[g - start]) else OUTSIDE
  }

  function CovarianceAtPixel(order: OrderProduct, start: int, pair: Pair, g: int): Num
    requires order.Shaped()
  {
    if Inside(order, start, g) then CovarianceOf(order.samples[g - start], pair) else Val(0.0)
  }

  function QualityAt(order: OrderProduct, start: int, g: int): Quality
    requires order.Shaped()
  {
    if Inside(order, start, g) then order.dq[g - start] else {}
  }

  ghost predicate AllShaped(orders: seq<OrderProduct>) { forall i :: 0 <= i < |orders| ==> orders[i].Shaped() }

  /** What every order has at pixel g. */
  ghost function Column(orders: seq<OrderProduct>, starts: seq<int>, field: Field, g: int): (r: seq<Cell>)
    requires AllShaped(orders) && |starts| == |orders|
    ensures |r| == |orders|
  {
    seq(|orders|, i requires 0 <= i < |orders| => CellAt(orders[i], starts[i], field, g))
  }

  ghost function CovarianceColumn(orders: seq<OrderProduct>, starts: seq<int>, pair: Pair, g: int): (r: seq<Num>)
    requires AllShaped(orders) && |starts| == |orders|
    ensures |r| == |orders|
  {
    seq(|orders|, i requires 0 <= i < |orders| => CovarianceAtPixel(orders[i], starts[i], pair, g))
  }

  // ----------------------------------------------------------------- weighted merge

  ghost function Vertical<T>(rows: seq<seq<T>>, size: nat, g: nat): (r: seq<T>)
    requires Rectangular(rows, size) && g < size
    ensures |r| == |rows|
  {
    seq(|rows|, i requires 0 <= i < |rows| => rows[i][g])
  }

  ghost function WeightTo(cells: seq<Cell>, k: nat): real { Sum(0, k, i => W(cells, i)) }

  ghost function NumeratorTo(cells: seq<Cell>, k: nat): real { Sum(0, k, i => ValueTerm(cells, i)) }

  ghost function VarianceTo(cells: seq<Cell>, k: nat): real { Sum(0, k, i => VarianceTerm(cells, i)) }

  /** Adds one order to the running sums, at its valid pixels only. */
  method AddOrder(row: seq<Cell>, numerator: array<real>, denominator: array<real>) returns (weight: seq<real>)
    requires numerator != denominator && numerator.Length == denominator.Length == |row|
    modifies numerator, denominator
    ensures |weight| == |row| && forall g :: 0 <= g < |row| ==> weight[g] == row[g].Weight()
    ensures forall g :: 0 <= g < |row| ==> numerator[g] == old(numerator[g]) + row[g].Weight() * row[g].Value()
    ensures forall g :: 0 <= g < |row| ==> denominator[g] == old(denominator[g]) + row[g].Weight()
  {
    weight := [];
    for g := 0 to |row|
      invariant |weight| == g && forall h :: 0 <= h < g ==> weight[h] == row[h].Weight()
      invariant forall h :: 0 <= h < g ==> numerator[h] == old(numerator[h]) + row[h].Weight() * row[h].Value()
      invariant forall h :: 0 <= h < g ==> denominator[h] == old(denominator[h]) + row[h].Weight()
      invariant forall h :: g <= h < |row| ==> numerator[h] == old(numerator[h]) && denominator[h] == old(denominator[h])
    {
      if row[g].Valid() {
        var w := Max(row[g].blaze, 0.0) / row[g].variance.v;
        numerator[g] := numerator[g] + w * row[g].value.v;
        denominator[g] := denominator[g] + w;
        weight := weight + [w];
      } else {
        weight := weight + [0.0];
      }
    }
  }

  method AddVariance(row: seq<Cell>, weight: seq<real>, variance: array<real>)
    requires variance.Length == |row| == |weight|
    requires forall g :: 0 <= g < |row| ==> weight[g] == row[g].Weight()
    modifies variance
    ensures forall g :: 0 <= g < |row| ==>
      variance[g] == old(variance[g]) + row[g].Weight() * row[g].Weight() * row[g].Variance()
  {
    for g := 0 to |row|
      invariant forall h :: 0 <= h < g ==>
        variance[h] == old(variance[h]) + row[h].Weight() * row[h].Weight() * row[h].Variance()
      invariant forall h :: g <= h < |row| ==> variance[h] == old(variance[h])
    {
      variance[g] := variance[g] + weight[g] * weight[g] * row[g].Variance();
    }
  }

  /** Weighted values and weights, order after order. */
  method Accumulate(rows: seq<seq<Cell>>, size: nat)
    returns (numerator: seq<real>, denominator: seq<real>, weights: seq<seq<real>>)
    requires Rectangular(rows, size)
    ensures AreSums(numerator, denominator, rows, size, |rows|)
    ensures |weights| == |rows| && AreWeights(weights, rows, size)
  {
    var values, totals := new real[size](_ => 0.0), new real[size](_ => 0.0);
    weights := [];
    for i := 0 to |rows|
      invariant |weights| == i && AreWeights(weights, rows, size)
      invariant AreSums(values[..], totals[..], rows, size, i)
    {
      ghost var values0, totals0 := values[..], totals[..];
      var weight := AddOrder(rows[i], values, totals);
      weights := weights + [weight];
      AreSumsStep(values0, totals0, values[..], totals[..], rows, size, i);
    }
    numerator, denominator := values[..], totals[..];
  }

  ghost predicate AreWeights(weights: seq<seq<real>>, rows: seq<seq<Cell>>, size: nat)
    requires Rectangular(rows, size)
  {
    && |weights| <= |rows| && Rectangular(weights, size)
    && forall i, g :: 0 <= i < |weights| && 0 <= g < size ==> weights[i][g] == rows[i][g].Weight()
  }

  ghost predicate AreSums(numerator: seq<real>, denominator: seq<real>, rows: seq<seq<Cell>>, size: nat, k: nat)
    requires Rectangular(rows, size)
  {
    && |numerator| == |denominator| == size
    && (forall g :: 0 <= g < size ==> numerator[g] == NumeratorTo(Vertical(rows, size, g), k))
    && (forall g :: 0 <= g < size ==> denominator[g] == WeightTo(Vertical(rows, size, g), k))
  }

  lemma {:induction false} PrefixGrows(cells: seq<Cell>, k: nat, cell: Cell)
    requires k < |cells| && cell == cells[k]
    ensures NumeratorTo(cells, k + 1) == NumeratorTo(cells, k) + cell.Weight() * cell.Value()
    ensures WeightTo(cells, k + 1) == WeightTo(cells, k) + cell.Weight()
  {}

  lemma {:induction false} AreSumsStep(values0: seq<real>, totals0: seq<real>, values: seq<real>, totals: seq<real>,
                                       rows: seq<seq<Cell>>, size: nat, k: nat)
    requires Rectangular(rows, size) && AreSums(values0, totals0, rows, size, k) && k < |rows|
    requires |values| == |totals| == size
    requires forall g :: 0 <= g < size ==> values[g] == values0[g] + rows[k][g].Weight() * rows[k][g].Value()
    requires forall g :: 0 <= g < size ==> totals[g] == totals0[g] + rows[k][g].Weight()
    ensures AreSums(values, totals, rows, size, k + 1)
  {
    forall g | 0 <= g < size
      ensures values[g] == NumeratorTo(Vertical(rows, size, g), k + 1)
      ensures totals[g] == WeightTo(Vertical(rows, size, g), k + 1)
    {
      PrefixGrows(Vertical(rows, size, g), k, rows[k][g]);
    }
  }

  method AccumulateVariance(rows: seq<seq<Cell>>, size: nat, weights: seq<seq<real>>) returns (squares: seq<real>)
    requires Rectangular(rows, size) && |weights| == |rows| && AreWeights(weights, rows, size)
    ensures |squares| == size
    ensures forall g :: 0 <= g < size ==> squares[g] == VarianceTo(Vertical(rows, size, g), |rows|)
  {
    var variance := new real[size](_ => 0.0);
    for i := 0 to |rows|
      invariant forall g :: 0 <= g < size ==> variance[g] == VarianceTo(Vertical(rows, size, g), i)
    {
      AddVariance(rows[i], weights[i], variance);
      forall g | 0 <= g < size
        ensures variance[g] == VarianceTo(Vertical(rows, size, g), i + 1)
      {}
    }
    squares := variance[..];
  }

  /** Inverse-variance times blaze weighted mean and its variance, at every pixel. */
  method WeightedMerge(rows: seq<seq<Cell>>, size: nat) returns (merged: seq<Num>, variance: seq<Num>, weights: seq<seq<real>>)
    requires Rectangular(rows, size)
    ensures |merged| == |variance| == size && |weights| == |rows| && AreWeights(weights, rows, size)
    ensures forall g :: 0 <= g < size ==> merged[g] == MergedValue(Vertical(rows, size, g))
    ensures forall g :: 0 <= g < size ==> variance[g] == MergedVariance(Vertical(rows, size, g))
  {
    var numerator, denominator;
    numerator, denominator, weights := Accumulate(rows, size);
    var squares := AccumulateVariance(rows, size, weights);
    merged, variance := [], [];
    for g := 0 to size
      invariant |merged| == |variance| == g
      invariant forall h :: 0 <= h < g ==> merged[h] == MergedValue(Vertical(rows, size, h))
      invariant forall h :: 0 <= h < g ==> variance[h] == MergedVariance(Vertical(rows, size, h))
    {
      var value, error := DividePixel(numerator[g], squares[g], denominator[g]);
      merged, variance := merged + [value], variance + [error];
    }
  }

  /** The division where the denominator is positive; elsewhere the value is NaN and the variance infinite. */
  method DividePixel(numerator: real, squares: real, denominator: real) returns (value: Num, variance: Num)
    ensures value == if denominator > 0.0 then Val(numerator / denominator) else Missing
    ensures variance == if denominator > 0.0 then Val(Ratio(squares, denominator, denominator)) else Missing
  {
    if denominator > 0.0 {
      var square := denominator * denominator;
      PositiveProduct(denominator, denominator, square);
      return Val(numerator / denominator), Val(squares / square);
    }
    return Missing, Missing;
  }
}
