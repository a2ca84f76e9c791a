/** The shared logarithmic wavelength grid, its per-order parts, and the merge step's membership check. */
module LogGrid {
  import opened Numeric
  import opened Bins

  // ------------------------------------------------------------- the global grid

  /** How many steps of at least `unit` fit between x and the maximum. */
  function Steps(x: real, maximum: real, unit: real): int
    requires unit > 0.0
  {
    if x > maximum then 0 else ((maximum - x) / unit).Floor + 1
  }

  lemma {:induction false} StepsDecrease(x: real, next: real, maximum: real, unit: real)
    requires unit > 0.0 && x <= maximum && x + unit <= next
    ensures 0 <= Steps(next, maximum, unit) < Steps(x, maximum, unit)
  {
    var b := (maximum - x) / unit;
    assert b * unit == maximum - x;
    assert b >= 0.0;
    if next <= maximum {
      var a := (maximum - next) / unit;
      assert a * unit == maximum - next;
      assert a >= 0.0;
      Monotone(a, b - 1.0, unit);
    }
  }

  lemma {:induction false} Monotone(a: real, b: real, unit: real)
    requires unit > 0.0 && a * unit <= b * unit
    ensures a <= b
  {
    if b < a {
      StrictlyMonotone(b, a, unit);
    }
  }

  lemma {:induction false} StrictlyMonotone(a: real, b: real, unit: real)
    requires unit > 0.0 && a < b
    ensures a * unit < b * unit
  {
    PositiveProduct(b - a, unit, (b - a) * unit);
    assert (b - a) * unit == b * unit - a * unit;
  }

  /** The first step of the grid, a lower bound for all of them. */
  function Unit(first: real, ratio: real): (u: real)
    requires first > 0.0 && ratio > 1.0
    ensures u > 0.0
  {
    PositiveProduct(first, ratio - 1.0, first * (ratio - 1.0));
    first * (ratio - 1.0)
  }

  /** x, x * ratio, x * ratio^2, ... up to the last value not above the maximum. */
  function Geometric(x: real, maximum: real, ratio: real, first: real): (grid: seq<real>)
    requires 0.0 < first <= x && ratio > 1.0
    decreases Steps(x, maximum, Unit(first, ratio))
  {
    if x > maximum then [] else
      StepsDecrease(x, x * ratio, maximum, Unit(first, ratio));
      [x] + Geometric(x * ratio, maximum, ratio, first)
  }

  ghost predicate StepsBy(grid: seq<real>, ratio: real) {
    forall k :: 0 <= k < |grid| - 1 ==> StepAt(grid, ratio, k)
  }

  ghost predicate StepAt(grid: seq<real>, ratio: real, k: int)
    requires 0 <= k < |grid| - 1
  {
    grid[k + 1] == grid[k] * ratio
  }

  /** Every point is the previous one times the ratio, all points are at most the maximum, and one more step exceeds it. */
  ghost predicate IsGeometric(grid: seq<real>, first: real, maximum: real, ratio: real) {
    && |grid| >= 1 && grid[0] == first
    && StepsBy(grid, ratio)
    && StrictlyIncreasing(grid)
    && grid[|grid| - 1] <= maximum < grid[|grid| - 1] * ratio
  }

  lemma {:induction false} GeometricIs(x: real, maximum: real, ratio: real, first: real)
    requires 0.0 < first <= x <= maximum && ratio > 1.0
    ensures IsGeometric(Geometric(x, maximum, ratio, first), x, maximum, ratio)
    decreases Steps(x, maximum, Unit(first, ratio))
  {
    StepsDecrease(x, x * ratio, maximum, Unit(first, ratio));
    if x * ratio <= maximum {
      GeometricIs(x * ratio, maximum, ratio, first);
      Prepend(x, Geometric(x * ratio, maximum, ratio, first), maximum, ratio);
    } else {
      assert Geometric(x * ratio, maximum, ratio, first) == [];
    }
  }

  lemma {:induction false} PrependStep(x: real, rest: seq<real>, ratio: real, k: int)
    requires StepsBy(rest, ratio) && 0 <= k < |rest| && rest[0] == x * ratio
    ensures StepAt([x] + rest, ratio, k)
  {
    if k > 0 {
      assert StepAt(rest, ratio, k - 1);
    }
  }

  lemma {:induction false} Prepend(x: real, rest: seq<real>, maximum: real, ratio: real)
    requires x < x * ratio && IsGeometric(rest, x * ratio, maximum, ratio)
    ensures IsGeometric([x] + rest, x, maximum, ratio)
  {
    var grid := [x] + rest;
    forall k | 0 <= k < |grid| - 1
      ensures StepAt(grid, ratio, k)
    {
      PrependStep(x, rest, ratio, k);
    }
    assert grid[|grid| - 1] == rest[|rest| - 1];
  }

  function LogarithmicAirGrid(minimum: real, maximum: real, ratio: real): Result<seq<real>>
    requires ratio > 1.0
  {
    if minimum <= 0.0 || maximum <= minimum then Failure("a positive increasing wavelength interval is required")
    else Success(Geometric(minimum, maximum, ratio, minimum))
  }

  // --------------------------------------------------------- the parts per order

  /** The grid points inside [lower, upper], by boolean mask. */
  function Select(grid: seq<real>, lower: real, upper: real): seq<real> {
    if grid == [] then []
    else if lower <= grid[0] <= upper then [grid[0]] + Select(grid[1..], lower, upper)
    else Select(grid[1..], lower, upper)
  }

  ghost predicate SliceOf(part: seq<real>, grid: seq<real>, start: int, stop: int) {
    0 <= start <= stop <= |grid| && part == grid[start..stop]
  }

  lemma {:induction false} NothingAbove(grid: seq<real>, lower: real, upper: real)
    requires forall i :: 0 <= i < |grid| ==> grid[i] > upper
    ensures Select(grid, lower, upper) == []
  {
    if grid != [] {
      NothingAbove(grid[1..], lower, upper);
    }
  }

  /** Masking an increasing grid by an interval yields one contiguous slice: the points before it are below
      the interval, the points after it are above. */
  lemma {:induction false} SelectIsSlice(grid: seq<real>, lower: real, upper: real) returns (start: int, stop: int)
    requires StrictlyIncreasing(grid)
    ensures SliceOf(Select(grid, lower, upper), grid, start, stop)
    ensures forall i :: 0 <= i < start ==> grid[i] < lower
    ensures forall i :: start <= i < stop ==> lower <= grid[i] <= upper
    ensures forall i :: stop <= i < |grid| ==> grid[i] > upper
  {
    if grid == [] {
      start, stop := 0, 0;
    } else if grid[0] > upper {
      NothingAbove(grid, lower, upper);
      start, stop := 0, 0;
      assert grid[0..0] == [];
    } else {
      var rest := grid[1..];
      var a, b := SelectIsSlice(rest, lower, upper);
      if grid[0] < lower {
        start, stop := a + 1, b + 1;
        assert forall i :: 1 <= i < |grid| ==> grid[i] == rest[i - 1];
        assert grid[start..stop] == rest[a..b];
      } else {
        assert |rest| > 0 ==> grid[0] < grid[1] == rest[0];
        assert a == 0;
        start, stop := 0, b + 1;
        assert forall i :: 1 <= i < |grid| ==> grid[i] == rest[i - 1];
        assert grid[0..b + 1] == [grid[0]] + rest[0..b];
      }
    }
  }

  function Finite(values: seq<Num>): (r: seq<real>)
    ensures forall v :: v in r <==> Val(v) in values
  {
    if values == [] then []
    else (if values[0].Val? then [values[0].v] else []) + Finite(values[1..])
  }

  method Extremes(values: seq<real>) returns (minimum: real, maximum: real)
    requires |values| >= 1
    ensures minimum in values && maximum in values
    ensures forall v :: v in values ==> minimum <= v <= maximum
  {
    minimum, maximum := values[0], values[0];
    for i := 1 to |values|
      invariant minimum in values && maximum in values
      invariant forall j :: 0 <= j < i ==> minimum <= values[j] <= maximum
    {
      minimum, maximum := Min(minimum, values[i]), Max(maximum, values[i]);
    }
  }

  /** The wavelengths of one order in every channel of every exposure. */
  type Channels = seq<seq<Num>>

  /** Every channel has at least two finite wavelengths and its finite range contains [lower, upper]. */
  ghost predicate Covers(channels: Channels, lower: real, upper: real) {
    forall c :: 0 <= c < |channels| ==> CoveredBy(Finite(channels[c]), lower, upper)
  }

  ghost predicate CoveredBy(values: seq<real>, lower: real, upper: real) {
    |values| >= 2 && (exists v :: v in values && v <= lower) && (exists v :: v in values && upper <= v)
  }

  /** The widest range that every channel covers. */
  ghost predicate IsCommonRange(channels: Channels, lower: real, upper: real) {
    && lower < upper && Covers(channels, lower, upper)
    && forall l, u :: Covers(channels, l, u) ==> lower <= l && u <= upper
  }

  /** The range covered by all channels: the largest minimum and the smallest maximum, if they enclose anything. */
  method CommonRange(channels: Channels) returns (r: Result<(real, real)>)
    requires |channels| >= 1
    ensures r.Success? ==> IsCommonRange(channels, r.value.0, r.value.1)
    ensures r.Failure? ==> !exists lower, upper :: lower < upper && Covers(channels, lower, upper)
  {
    var lower, upper := 0.0, 0.0;
    for c := 0 to |channels|
      invariant c > 0 ==> Covers(channels[..c], lower, upper)
      invariant c > 0 ==> forall l, u :: Covers(channels, l, u) ==> lower <= l && u <= upper
    {
      var values := Finite(channels[c]);
      if |values| < 2 {
        assert forall l, u :: Covers(channels, l, u) ==> CoveredBy(values, l, u);
        return Failure("order lacks calibrated wavelength samples");
      }
      var low, high := Extremes(values);
      var newLower := if c == 0 || low > lower then low else lower;
      var newUpper := if c == 0 || high < upper then high else upper;
      WidenCover(channels, c, lower, upper, newLower, newUpper, low, high);
      forall l, u | Covers(channels, l, u)
        ensures low <= l && u <= high
      {
        assert CoveredBy(values, l, u);
      }
      lower, upper := newLower, newUpper;
    }
    assert channels[..|channels|] == channels;
    if upper <= lower {
      return Failure("order has no common wavelength coverage");
    }
    r := Success((lower, upper));
  }

  lemma {:induction false} WidenCover(channels: Channels, c: int, lower: real, upper: real, newLower: real,
                                      newUpper: real, low: real, high: real)
    requires 0 <= c < |channels| && |Finite(channels[c])| >= 2
    requires c > 0 ==> Covers(channels[..c], lower, upper) && lower <= newLower && newUpper <= upper
    requires low in Finite(channels[c]) && low <= newLower && high in Finite(channels[c]) && newUpper <= high
    ensures Covers(channels[..c + 1], newLower, newUpper)
  {
    var longer := channels[..c + 1];
    forall k | 0 <= k < |longer|
      ensures CoveredBy(Finite(longer[k]), newLower, newUpper)
    {
      if k < c {
        assert longer[k] == channels[..c][k];
      }
    }
  }

  /** The contiguous slice of the grid points that lie inside the finite range of every channel. */
  ghost predicate IsPart(part: seq<real>, grid: seq<real>, channels: Channels) {
    && (exists start, stop :: SliceOf(part, grid, start, stop))
    && (forall g :: g in part <==> g in grid && Covers(channels, g, g))
  }

  lemma {:induction false} CoversInside(channels: Channels, lower: real, upper: real, g: real)
    requires IsCommonRange(channels, lower, upper)
    ensures Covers(channels, g, g) <==> lower <= g <= upper
  {
    if lower <= g <= upper {
      forall c | 0 <= c < |channels|
        ensures CoveredBy(Finite(channels[c]), g, g)
      {
        assert CoveredBy(Finite(channels[c]), lower, upper);
      }
    }
  }

  lemma {:induction false} SelectIsPart(grid: seq<real>, channels: Channels, lower: real, upper: real)
    requires StrictlyIncreasing(grid) && IsCommonRange(channels, lower, upper)
    ensures IsPart(Select(grid, lower, upper), grid, channels)
  {
    var part := Select(grid, lower, upper);
    var start, stop := SelectIsSlice(grid, lower, upper);
    forall k | 0 <= k < |grid| && lower <= grid[k] <= upper
      ensures grid[k] in part
    {
      assert start <= k < stop && part[k - start] == grid[k];
    }
    forall g
      ensures g in part <==> g in grid && Covers(channels, g, g)
    {
      CoversInside(channels, lower, upper, g);
      if g in part {
        var k :| 0 <= k < |part| && part[k] == g;
        assert g == grid[start + k];
      }
    }
  }

  /** Order o has a range of positive length that every channel covers. */
  ghost predicate HasRange(channels: Channels) {
    exists lower, upper :: lower < upper && Covers(channels, lower, upper)
  }

  method OrderBounds(orders: seq<Channels>) returns (r: Result<seq<(real, real)>>)
    requires forall o :: 0 <= o < |orders| ==> |orders[o]| >= 1
    ensures r.Failure? <==> exists o :: 0 <= o < |orders| && !HasRange(orders[o])
    ensures r.Success? ==> |r.value| == |orders|
    ensures r.Success? ==> forall o :: 0 <= o < |orders| ==> IsCommonRange(orders[o], r.value[o].0, r.value[o].1)
  {
    var bounds: seq<(real, real)> := [];
    for o := 0 to |orders|
      invariant |bounds| == o
      invariant forall k :: 0 <= k < o ==> IsCommonRange(orders[k], bounds[k].0, bounds[k].1)
    {
      var range := CommonRange(orders[o]);
      if range.Failure? {
        return Failure(range.error);
      }
      bounds := bounds + [range.value];
    }
    r := Success(bounds);
  }

  method GlobalRange(bounds: seq<(real, real)>) returns (minimum: real, maximum: real)
    requires |bounds| >= 1
    ensures (exists o :: 0 <= o < |bounds| && minimum == bounds[o].0) && forall o :: 0 <= o < |bounds| ==>
      minimum <= bounds[o].0
    ensures (exists o :: 0 <= o < |bounds| && maximum == bounds[o].1) && forall o :: 0 <= o < |bounds| ==>
      bounds[o].1 <= maximum
  {
    minimum, maximum := bounds[0].0, bounds[0].1;
    for o := 1 to |bounds|
      invariant exists k :: 0 <= k < o && minimum == bounds[k].0
      invariant exists k :: 0 <= k < o && maximum == bounds[k].1
      invariant forall k :: 0 <= k < o ==> minimum <= bounds[k].0 && bounds[k].1 <= maximum
    {
      minimum, maximum := Min(minimum, bounds[o].0), Max(maximum, bounds[o].1);
    }
  }

  method OrderParts(grid: seq<real>, orders: seq<Channels>, bounds: seq<(real, real)>) returns (parts: seq<seq<real>>)
    requires StrictlyIncreasing(grid) && |bounds| == |orders|
    requires forall o :: 0 <= o < |orders| ==> IsCommonRange(orders[o], bounds[o].0, bounds[o].1)
    ensures |parts| == |orders| && forall o :: 0 <= o < |orders| ==> IsPart(parts[o], grid, orders[o])
  {
    parts := [];
    for o := 0 to |orders|
      invariant |parts| == o
      invariant forall k :: 0 <= k < o ==> IsPart(parts[k], grid, orders[k])
    {
      var part := Select(grid, bounds[o].0, bounds[o].1);
      SelectIsPart(grid, orders[o], bounds[o].0, bounds[o].1);
      parts := parts + [part];
    }
  }

  datatype Grids = Grids(global: seq<real>, parts: seq<seq<real>>)

  /** The grid starts at the lowest bound of any order, and one more step would pass the highest one. */
  ghost predicate Spans(grid: seq<real>, bounds: seq<(real, real)>, ratio: real) {
    && |grid| >= 1
    && (exists o :: 0 <= o < |bounds| && grid[0] == bounds[o].0)
    && (exists o :: 0 <= o < |bounds| && grid[|grid| - 1] <= bounds[o].1)
    && (forall o :: 0 <= o < |bounds| ==> grid[0] <= bounds[o].0 && bounds[o].1 < grid[|grid| - 1] * ratio)
  }

  /** Some range that every channel covers starts at zero or below. */
  ghost predicate ReachesZero(channels: Channels) {
    exists lower, upper :: lower <= 0.0 && lower < upper && Covers(channels, lower, upper)
  }

  /** The global grid and its part for each order. It fails exactly without orders, for an order without a common range,
      or for one whose range is not positive. */
  method CommonLogGrids(orders: seq<Channels>, ratio: real) returns (r: Result<Grids>, ghost bounds: seq<(real, real)>)
    requires ratio > 1.0
    requires forall o :: 0 <= o < |orders| ==> |orders[o]| >= 1
    ensures r.Failure? <==>
      orders == [] || exists o :: 0 <= o < |orders| && (!HasRange(orders[o]) || ReachesZero(orders[o]))
    ensures r.Success? ==> |bounds| == |orders|
    ensures r.Success? ==> forall o :: 0 <= o < |orders| ==> IsCommonRange(orders[o], bounds[o].0, bounds[o].1)
    ensures r.Success? ==>
      StrictlyIncreasing(r.value.global) && StepsBy(r.value.global, ratio) && Spans(r.value.global, bounds, ratio)
    ensures r.Success? ==> |r.value.parts| == |orders|
    ensures r.Success? ==> forall o :: 0 <= o < |orders| ==> IsPart(r.value.parts[o], r.value.global, orders[o])
  {
    bounds := [];
    if |orders| == 0 {
      return Failure("at least one extracted spectrum is required"), bounds;
    }
    var ranges := OrderBounds(orders);
    if ranges.Failure? {
      return Failure(ranges.error), bounds;
    }
    bounds := ranges.value;
    var minimum, maximum := GlobalRange(ranges.value);
    ZeroReached(orders, ranges.value, minimum);
    assert ranges.value[0].0 < ranges.value[0].1;
    if minimum <= 0.0 {
      return Failure("a positive increasing wavelength interval is required"), bounds;
    }
    var grid := LogarithmicAirGrid(minimum, maximum, ratio).value;
    GridSpans(ranges.value, minimum, maximum, ratio);
    var parts := OrderParts(grid, orders, ranges.value);
    r := Success(Grids(grid, parts));
  }

  lemma {:induction false} GridSpans(bounds: seq<(real, real)>, minimum: real, maximum: real, ratio: real)
    requires 0.0 < minimum < maximum && ratio > 1.0
    requires (exists o :: 0 <= o < |bounds| && minimum == bounds[o].0) && forall o :: 0 <= o < |bounds| ==>
      minimum <= bounds[o].0
    requires (exists o :: 0 <= o < |bounds| && maximum == bounds[o].1) && forall o :: 0 <= o < |bounds| ==>
      bounds[o].1 <= maximum
    ensures var grid := LogarithmicAirGrid(minimum, maximum, ratio).value;
      StrictlyIncreasing(grid) && StepsBy(grid, ratio) && Spans(grid, bounds, ratio)
  {
    GeometricIs(minimum, maximum, ratio, minimum);
  }

  lemma {:induction false} ZeroReached(orders: seq<Channels>, bounds: seq<(real, real)>, minimum: real)
    requires |bounds| == |orders| && forall o :: 0 <= o < |orders| ==> IsCommonRange(orders[o], bounds[o].0, bounds[o].1)
    requires exists o :: 0 <= o < |bounds| && minimum == bounds[o].0
    requires forall o :: 0 <= o < |bounds| ==> minimum <= bounds[o].0
    ensures minimum <= 0.0 <==> exists o :: 0 <= o < |orders| && ReachesZero(orders[o])
    ensures forall o :: 0 <= o < |orders| ==> HasRange(orders[o])
  {
    if minimum <= 0.0 {
      var o :| 0 <= o < |bounds| && minimum == bounds[o].0;
      assert Covers(orders[o], bounds[o].0, bounds[o].1);
      assert ReachesZero(orders[o]);
    }
    forall o | 0 <= o < |orders|
      ensures HasRange(orders[o]) && (ReachesZero(orders[o]) ==> minimum <= 0.0)
    {
      assert IsCommonRange(orders[o], bounds[o].0, bounds[o].1);
    }
  }

  // --------------------------------------------------- placing an order in a merge

  /** Left insertion point of w in an increasing grid. */
  function SearchSorted(grid: seq<real>, w: real): (k: int)
    ensures 0 <= k <= |grid|
    ensures forall i :: 0 <= i < k ==> grid[i] < w
    ensures k < |grid| ==> grid[k] >= w
  {
    if grid == [] || grid[0] >= w then 0 else 1 + SearchSorted(grid[1..], w)
  }

  /** numpy's default closeness test: relative 1e-5 of the second argument plus absolute 1e-8. */
  predicate IsClose(a: real, b: real) {
    Abs(a - b) <= 0.00000001 + 0.00001 * Abs(b)
  }

  /** The merge step accepts an order wavelength when the grid point at its insertion index is close to it. */
  predicate Accepts(grid: seq<real>, w: real) {
    var k := SearchSorted(grid, w);
    k < |grid| && IsClose(grid[k], w)
  }

  /** An order cut from the grid is accepted and lands exactly where it was cut: its first insertion index is
      the start of the slice, its last one is one before the stop. */
  lemma {:induction false} SliceIsPlaced(grid: seq<real>, part: seq<real>, start: int, stop: int, k: int)
    requires StrictlyIncreasing(grid) && SliceOf(part, grid, start, stop) && 0 <= k < |part|
    ensures Accepts(grid, part[k]) && SearchSorted(grid, part[k]) == start + k
  {
    var s := SearchSorted(grid, part[k]);
    assert grid[start + k] == part[k];
    assert forall i :: 0 <= i < start + k ==> grid[i] < part[k];
  }

  /** The lowest wavelength that the closeness test takes for the first grid point. */
  function Lowest(first: real): real {
    if first >= 0.00000001 then (first - 0.00000001) / 1.00001 else (first - 0.00000001) / 0.99999
  }

  lemma {:induction false} CloseBelow(first: real, w: real)
    requires 0.0 < first && w <= first
    ensures IsClose(first, w) <==> Lowest(first) <= w
  {
    var b := first - 0.00000001;
    assert Abs(first - w) == first - w;
    if first >= 0.00000001 {
      assert (b / 1.00001) * 1.00001 == b;
    } else {
      assert (b / 0.99999) * 0.99999 == b;
    }
  }

  lemma {:induction false} CloseAbove(previous: real, ratio: real, w: real)
    requires 0.0 < previous < w <= previous * ratio && 1.0 < ratio <= 1.00001
    ensures IsClose(previous * ratio, w)
  {
    assert previous * ratio <= previous * 1.00001;
  }

  /** A grid at the frozen step: geometric with a ratio of at most 1 + 1e-5. */
  ghost predicate IsFrozen(grid: seq<real>) {
    |grid| >= 1 && 0.0 < grid[0] && exists maximum, ratio :: 1.0 < ratio <= 1.00001 && IsGeometric(grid, grid[0],
        maximum, ratio)
  }

  /** At the frozen step the closeness test is wider than the step, so the merge accepts exactly the wavelengths from just
      below the first grid point to the last one, whether or not they are grid points. */
  lemma {:induction false} AcceptsIff(grid: seq<real>, w: real)
    requires IsFrozen(grid)
    ensures Accepts(grid, w) <==> Lowest(grid[0]) <= w <= grid[|grid| - 1]
  {
    var maximum, ratio :| 1.0 < ratio <= 1.00001 && IsGeometric(grid, grid[0], maximum, ratio);
    var k := SearchSorted(grid, w);
    LowestIsBelow(grid[0]);
    if k == |grid| {
      assert grid[k - 1] < w;
    } else if k > 0 {
      assert StepAt(grid, ratio, k - 1);
      CloseAbove(grid[k - 1], ratio, w);
      assert w <= grid[k] <= grid[|grid| - 1];
    } else {
      CloseBelow(grid[0], w);
      assert w <= grid[0] <= grid[|grid| - 1];
    }
  }

  lemma {:induction false} LowestIsBelow(first: real)
    requires 0.0 < first
    ensures Lowest(first) < first
  {
    var b := first - 0.00000001;
    if first >= 0.00000001 {
      assert (b / 1.00001) * 1.00001 == b;
    } else {
      assert (b / 0.99999) * 0.99999 == b;
    }
  }
}
