/** The weighted combination of overlapping orders at one pixel of the global grid. */
module MergePixel {
  import opened Numeric

  /** One order's value of one quantity at a pixel, its variance, and the blaze weight there. */
  datatype Cell = Cell(value: Num, variance: Num, blaze: real) {
    predicate Valid() { value.Val? && variance.Val? && variance.v > 0.0 }

    /** Inverse variance times blaze, clipped at zero. */
    function Weight(): real { if Valid() then Max(blaze, 0.0) / variance.v else 0.0 }

    function Value(): real { if value.Val? then value.v else 0.0 }

    function Variance(): real { if variance.Val? then variance.v else 0.0 }
  }

  function W(cells: seq<Cell>, i: int): real { if 0 <= i < |cells| then cells[i].Weight() else 0.0 }

  function Variance(cells: seq<Cell>, i: int): real { if 0 <= i < |cells| then cells[i].Variance() else 0.0 }

  ghost function ValueTerm(cells: seq<Cell>, i: int): real {
    if 0 <= i < |cells| then cells[i].Weight() * cells[i].Value() else 0.0
  }

  ghost function VarianceTerm(cells: seq<Cell>, i: int): real { W(cells, i) * W(cells, i) * Variance(cells, i) }

  ghost function TotalWeight(cells: seq<Cell>): real { Sum(0, |cells|, i => W(cells, i)) }

  ghost function Numerator(cells: seq<Cell>): real { Sum(0, |cells|, i => ValueTerm(cells, i)) }

  ghost function VarianceSum(cells: seq<Cell>): real { Sum(0, |cells|, i => VarianceTerm(cells, i)) }

  /** A sum divided by the product of two weight totals. */
  ghost function Ratio(x: real, s: real, t: real): real
    requires s > 0.0 && t > 0.0
  {
    PositiveProduct(s, t, s * t);
    x / (s * t)
  }

  /** Division by a product of positive totals, as a multiplication. */
  lemma {:induction false} RatioIs(x: real, s: real, t: real, q: real)
    requires s > 0.0 && t > 0.0
    ensures x == (s * t) * q ==> Ratio(x, s, t) == q
    ensures Ratio(x, s, t) == q ==> x == (s * t) * q
  {
    var p := s * t;
    PositiveProduct(s, t, p);
    assert x == p * (x / p);
  }

  ghost function MergedValue(cells: seq<Cell>): Num {
    if TotalWeight(cells) > 0.0 then Val(Numerator(cells) / TotalWeight(cells)) else Missing
  }

  ghost function MergedVariance(cells: seq<Cell>): Num {
    if TotalWeight(cells) > 0.0 then Val(Ratio(VarianceSum(cells), TotalWeight(cells), TotalWeight(cells))) else Missing
  }

  // -------------------------------------------------------------- single orders

  lemma {:induction false} SingleSums(cells: seq<Cell>, k: int, w: int -> real, x: int -> real, y: int -> real)
    requires 0 <= k < |cells|
    requires forall i :: 0 <= i < |cells| && i != k ==> W(cells, i) == 0.0
    requires forall i :: w(i) == W(cells, i) && x(i) == ValueTerm(cells, i) && y(i) == VarianceTerm(cells, i)
    ensures TotalWeight(cells) == W(cells, k)
    ensures Numerator(cells) == ValueTerm(cells, k)
    ensures VarianceSum(cells) == VarianceTerm(cells, k)
  {
    forall i | 0 <= i < |cells| && i != k
      ensures w(i) == 0.0 && x(i) == 0.0 && y(i) == 0.0
    {}
    SumSingle(0, |cells|, k, w);
    SumSingle(0, |cells|, k, x);
    SumSingle(0, |cells|, k, y);
    SumCongruence(0, |cells|, w, i => W(cells, i));
    SumCongruence(0, |cells|, x, i => ValueTerm(cells, i));
    SumCongruence(0, |cells|, y, i => VarianceTerm(cells, i));
  }

  lemma {:induction false} SingleQuotients(w: real, value: real, variance: real, t: real, numerator: real, quadratic: real)
    requires w > 0.0 && t == w && numerator == w * value && quadratic == w * w * variance
    ensures numerator / t == value && Ratio(quadratic, t, t) == variance
  {
    RatioIs(quadratic, w, w, variance);
  }

  /** Where only order k has positive weight, the merge returns that order's value and variance. */
  lemma {:induction false} SingleOrder(cells: seq<Cell>, k: int)
    requires 0 <= k < |cells| && cells[k].Weight() > 0.0
    requires forall i :: 0 <= i < |cells| && i != k ==> cells[i].Weight() == 0.0
    ensures MergedValue(cells) == cells[k].value
    ensures MergedVariance(cells) == cells[k].variance
  {
    SingleSums(cells, k, i => W(cells, i), i => ValueTerm(cells, i), i => VarianceTerm(cells, i));
    SingleQuotients(cells[k].Weight(), cells[k].Value(), cells[k].Variance(),
                    TotalWeight(cells), Numerator(cells), VarianceSum(cells));
  }

  // ---------------------------------------------------------------- several orders

  lemma {:induction false} TermBetween(cell: Cell, low: real, high: real)
    requires cell.Weight() > 0.0 ==> low <= cell.Value() <= high
    ensures Times(low, cell.Weight()) <= cell.Weight() * cell.Value() <= Times(high, cell.Weight())
  {}

  lemma {:induction false} CellBetween(cells: seq<Cell>, i: int, low: real, high: real)
    requires 0 <= i < |cells| && (cells[i].Weight() > 0.0 ==> low <= cells[i].Value() <= high)
    ensures Times(low, W(cells, i)) <= ValueTerm(cells, i) <= Times(high, W(cells, i))
  {
    TermBetween(cells[i], low, high);
  }

  lemma {:induction false} SumBetween(n: int, low: real, high: real, w: int -> real, terms: int -> real)
    requires forall i :: 0 <= i < n ==> Times(low, w(i)) <= terms(i) <= Times(high, w(i))
    ensures Times(low, Sum(0, n, w)) <= Sum(0, n, terms) <= Times(high, Sum(0, n, w))
  {
    var lower, upper := i => Times(low, w(i)), i => Times(high, w(i));
    SumScale(0, n, low, w, lower);
    SumScale(0, n, high, w, upper);
    SumMonotone(0, n, lower, terms);
    SumMonotone(0, n, terms, upper);
  }

  lemma {:induction false} QuotientBetween(x: real, t: real, low: real, high: real)
    requires t > 0.0 && Times(low, t) <= x <= Times(high, t)
    ensures low <= x / t <= high
  {}

  lemma {:induction false} ConvexBy(cells: seq<Cell>, low: real, high: real, w: int -> real, terms: int -> real)
    requires TotalWeight(cells) > 0.0
    requires forall i :: 0 <= i < |cells| && cells[i].Weight() > 0.0 ==> low <= cells[i].Value() <= high
    requires forall i :: w(i) == W(cells, i) && terms(i) == ValueTerm(cells, i)
    ensures MergedValue(cells).Val? && low <= MergedValue(cells).v <= high
  {
    var n := |cells|;
    SumCongruence(0, n, w, i => W(cells, i));
    SumCongruence(0, n, terms, i => ValueTerm(cells, i));
    forall i | 0 <= i < n
      ensures Times(low, w(i)) <= terms(i) <= Times(high, w(i))
    {
      CellBetween(cells, i, low, high);
    }
    SumBetween(n, low, high, w, terms);
    QuotientBetween(Numerator(cells), TotalWeight(cells), low, high);
  }

  /** The merged value lies between the smallest and the largest contributing value. */
  lemma {:induction false} ConvexCombination(cells: seq<Cell>, low: real, high: real)
    requires TotalWeight(cells) > 0.0
    requires forall i :: 0 <= i < |cells| && cells[i].Weight() > 0.0 ==> low <= cells[i].Value() <= high
    ensures MergedValue(cells).Val? && low <= MergedValue(cells).v <= high
  {
    ConvexBy(cells, low, high, i => W(cells, i), i => ValueTerm(cells, i));
  }

  /** Inverse variance of a contributing order. */
  ghost function Precision(cells: seq<Cell>, i: int): real {
    if W(cells, i) > 0.0 && Variance(cells, i) > 0.0 then 1.0 / Variance(cells, i) else 0.0
  }

  ghost function TotalPrecision(cells: seq<Cell>): real { Sum(0, |cells|, i => Precision(cells, i)) }

  lemma {:induction false} PrecisionTerm(cells: seq<Cell>, i: int)
    requires 0 <= i < |cells| && cells[i].blaze <= 1.0
    ensures W(cells, i) >= 0.0
    ensures Psd2(VarianceTerm(cells, i), Precision(cells, i), W(cells, i))
    ensures VarianceTerm(cells, i) <= W(cells, i)
  {
    if cells[i].Weight() > 0.0 {
    }
  }

  lemma {:induction false} BoundsBy(cells: seq<Cell>, w: int -> real, x: int -> real, y: int -> real)
    requires TotalWeight(cells) > 0.0
    requires forall i :: 0 <= i < |cells| ==> cells[i].blaze <= 1.0
    requires forall i :: w(i) == W(cells, i) && x(i) == VarianceTerm(cells, i) && y(i) == Precision(cells, i)
    ensures Psd2(VarianceSum(cells), TotalPrecision(cells), TotalWeight(cells))
    ensures VarianceSum(cells) <= TotalWeight(cells)
  {
    var n := |cells|;
    SumCongruence(0, n, w, i => W(cells, i));
    SumCongruence(0, n, x, i => VarianceTerm(cells, i));
    SumCongruence(0, n, y, i => Precision(cells, i));
    forall i | 0 <= i < n
      ensures Psd2(x(i), y(i), w(i)) && x(i) <= w(i)
    {
      PrecisionTerm(cells, i);
    }
    SumPsd2(0, n, x, y, w);
    SumMonotone(0, n, x, w);
  }

  /** With blaze weights normalised to at most one, the merged variance lies between the inverse of the summed
      precisions of the contributing orders (the best any combination can reach) and the inverse of the summed weights. */
  lemma {:induction false} VarianceBounds(cells: seq<Cell>)
    requires TotalWeight(cells) > 0.0
    requires forall i :: 0 <= i < |cells| ==> cells[i].blaze <= 1.0
    ensures TotalPrecision(cells) > 0.0 && MergedVariance(cells).Val?
    ensures 1.0 / TotalPrecision(cells) <= MergedVariance(cells).v <= 1.0 / TotalWeight(cells)
  {
    BoundsBy(cells, i => W(cells, i), i => VarianceTerm(cells, i), i => Precision(cells, i));
    BoundsFromSums(VarianceSum(cells), TotalPrecision(cells), TotalWeight(cells));
  }

  lemma {:induction false} BoundsFromSums(x: real, y: real, t: real)
    requires t > 0.0 && Psd2(x, y, t) && x <= t
    ensures y > 0.0 && 1.0 / y <= Ratio(x, t, t) <= 1.0 / t
  {
    var q := Ratio(x, t, t);
    RatioIs(x, t, t, q);
    NotZero(x, y, t);
    var a, b := 1.0 / t, 1.0 / y;
    assert a * t == 1.0 && b * y == 1.0;
    UpperRatio(x, t, a, q, t);
  }

  lemma {:induction false} NotZero(x: real, y: real, t: real)
    requires t > 0.0 && Psd2(x, y, t)
    ensures y > 0.0
  {
    PositiveProduct(t, t, t * t);
    assert y == 0.0 ==> x * y == 0.0;
  }

  /** x <= t and x = (t * t) q give q <= 1 / t; the factors of the square are kept apart as t and u. */
  lemma {:induction false} UpperRatio(x: real, t: real, a: real, q: real, u: real)
    requires t == u > 0.0 && a * t == 1.0 && x == (t * u) * q && x <= t
    ensures q <= a
  {
    var c := t * q;
    assert x == u * c;
    assert c <= 1.0;
  }

}
