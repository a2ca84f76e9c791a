/** The single controlled resampling step: flux, variance, quality and lag-1 covariance on a target grid. */
module Resample {
  import opened Numeric
  import opened Bins
  import opened Banded

  /** A sparse row of the overlap matrix: source bin index to weight. */
  type Row = map<int, real>

  /** The samples of one order in increasing wavelength. `lag[i]` is the covariance of samples i and i + 1. */
  datatype Source = Source(edges: seq<real>, flux: seq<Num>, variance: seq<Num>, dq: seq<Quality>, lag: seq<real>) {
    function Size(): int { |edges| - 1 }

    ghost predicate WellFormed() {
      && |edges| >= 2 && StrictlyIncreasing(edges)
      && |flux| == |variance| == |dq| == |lag| == |edges| - 1
    }

    /** A sample the resampler uses: finite flux and finite non-negative variance. */
    predicate Ok(i: int) {
      0 <= i < |flux| && i < |variance| && flux[i].Val? && variance[i].Val? && variance[i].v >= 0.0
    }

    ghost predicate AllOk() {
      forall i :: 0 <= i < Size() ==> Ok(i)
    }

    function Y(i: int): real { if Ok(i) then flux[i].v else 0.0 }

    function V(i: int): real { if Ok(i) then variance[i].v else 0.0 }

    function Lag(i: int): real { if 0 <= i < |lag| then lag[i] else 0.0 }

    predicate Used(row: Row, i: int) { i in row && Ok(i) }

    ghost predicate Empty(row: Row) { forall i :: !Used(row, i) }

    /** Weight of sample i in a target bin, zero when the sample is not used. */
    ghost function W(row: Row, i: int): real { if Used(row, i) then row[i] else 0.0 }

    /** The tridiagonal covariance matrix of the samples. */
    ghost function C(i: int, j: int): real {
      if i == j then V(i) else if j == i + 1 then Lag(i) else if i == j + 1 then Lag(j) else 0.0
    }

    ghost function Entry(first: Row, second: Row, i: int, j: int): real {
      W(first, i) * W(second, j) * C(i, j)
    }

    /** w_first' C w_second: the covariance of two target bins, the variance of one when they are the same. */
    ghost function Covariance(first: Row, second: Row): real {
      DoubleSum(Size(), (i, j) => Entry(first, second, i, j))
    }

    ghost function FluxTerm(row: Row, i: int): real { W(row, i) * Y(i) }

    ghost function FluxOut(row: Row): Num {
      if Empty(row) then Missing else Val(Sum(0, Size(), i => FluxTerm(row, i)))
    }

    ghost function VarianceOut(row: Row): Num {
      if Empty(row) then Missing else Val(Max(Covariance(row, row), 0.0))
    }

    ghost function DqUnion(row: Row, n: int): Quality {
      if n <= 0 then {}
      else DqUnion(row, n - 1) + (if Used(row, n - 1) && n - 1 < |dq| then dq[n - 1] else {})
    }

    ghost function DqOut(row: Row): Quality {
      if Empty(row) then {RESAMPLE_EDGE} else DqUnion(row, Size())
    }

    // The lag-1 column is built from every shared source bin, used or not.

    ghost function RawW(row: Row, i: int): real { if i in row then row[i] else 0.0 }

    ghost function RawC(i: int, j: int): real {
      if i == j then (if 0 <= i < |variance| && variance[i].Val? then variance[i].v else 0.0) else C(i, j)
    }

    ghost function RawEntry(first: Row, second: Row, i: int, j: int): real {
      RawW(first, i) * RawW(second, j) * RawC(i, j)
    }

    ghost function RawTerm(first: Row, second: Row, i: int): real {
      RawEntry(first, second, i, i)
      + (if i > 0 then RawEntry(first, second, i, i - 1) else 0.0)
      + (if i + 1 < Size() then RawEntry(first, second, i, i + 1) else 0.0)
    }

    ghost predicate SharesNonFinite(first: Row, second: Row) {
      exists i :: 0 <= i < |variance| && i in first && i in second && variance[i].Missing?
    }

    ghost function LagOut(first: Row, second: Row): Num {
      if SharesNonFinite(first, second) then Missing
      else Val(Sum(0, Size(), i => RawTerm(first, second, i)))
    }
  }

  ghost predicate InRange(row: Row, n: int) {
    forall i :: i in row ==> 0 <= i < n && row[i] > 0.0
  }

  // ------------------------------------------------------------ one target bin

  /** What the ascending scan adds to w' C w at source bin i. */
  ghost function VarianceTerm(source: Source, row: Row, i: int): real {
    source.Entry(row, row, i, i)
    + (if i > 0 then source.Entry(row, row, i - 1, i) + source.Entry(row, row, i, i - 1) else 0.0)
  }

  lemma {:induction false} VarianceByScan(source: Source, row: Row, terms: int -> real)
    requires source.WellFormed()
    requires forall i :: terms(i) == VarianceTerm(source, row, i)
    ensures source.Covariance(row, row) == Sum(0, source.Size(), terms)
  {
    var e := (i: int, j: int) => source.Entry(row, row, i, j);
    forall i, j | j > i + 1 || i > j + 1
      ensures e(i, j) == 0.0
    {}
    DoubleSumByScan(source.Size(), e, terms);
    DoubleSumSame(source.Size(), e, (i, j) => source.Entry(row, row, i, j));
  }

  ghost function StepValue(source: Source, row: Row, i: int): real
    requires source.WellFormed() && 0 <= i < source.Size()
  {
    if !source.Used(row, i) then 0.0
    else if !source.Used(row, i - 1) then row[i] * row[i] * source.variance[i].v
    else row[i] * row[i] * source.variance[i].v + 2.0 * row[i - 1] * row[i] * source.lag[i - 1]
  }

  /** The weighted flux sum over the sorted keys of a row. */
  method AccumulateFlux(source: Source, row: Row) returns (total: real)
    requires source.WellFormed() && InRange(row, source.Size())
    ensures total == Sum(0, source.Size(), i => source.FluxTerm(row, i))
  {
    total := 0.0;
    ghost var terms := i => source.FluxTerm(row, i);
    for index := 0 to source.Size()
      invariant total == Sum(0, index, terms)
    {
      if source.Used(row, index) {
        total := total + row[index] * source.flux[index].v;
      }
    }
    SumCongruence(0, source.Size(), terms, i => source.FluxTerm(row, i));
  }

  /** The union of the quality words of the used samples, and whether there is one. */
  method AccumulateDq(source: Source, row: Row) returns (dq: Quality, any: bool)
    requires source.WellFormed() && InRange(row, source.Size())
    ensures dq == source.DqUnion(row, source.Size())
    ensures any <==> !source.Empty(row)
  {
    dq, any := {}, false;
    for index := 0 to source.Size()
      invariant dq == source.DqUnion(row, index)
      invariant any <==> exists i :: 0 <= i < index && source.Used(row, i)
    {
      if source.Used(row, index) {
        any := true;
        dq := dq + source.dq[index];
      }
    }
  }

  /** The quadratic form w' C w: squared weights, plus twice the lag of each adjacent used pair. */
  method AccumulateVariance(source: Source, row: Row, ghost terms: int -> real) returns (total: real)
    requires source.WellFormed() && InRange(row, source.Size())
    requires forall i :: 0 <= i < source.Size() ==> terms(i) == StepValue(source, row, i)
    ensures total == Sum(0, source.Size(), terms)
  {
    total := 0.0;
    for index := 0 to source.Size()
      invariant total == Sum(0, index, terms)
    {
      if source.Used(row, index) {
        var contribution := row[index] * row[index] * source.variance[index].v;
        if source.Used(row, index - 1) {
          contribution := contribution + 2.0 * row[index - 1] * row[index] * source.lag[index - 1];
        }
        total := total + contribution;
      }
    }
  }

  lemma {:induction false} EntryIs(source: Source, row: Row, i: int, j: int)
    ensures source.Entry(row, row, i, j) == (if source.Used(row, i) && source.Used(row,
        j) then row[i] * row[j] * source.C(i, j) else 0.0)
  {}

  lemma {:induction false} StepIsTerm(source: Source, row: Row, i: int)
    requires source.WellFormed() && InRange(row, source.Size()) && 0 <= i < source.Size()
    ensures VarianceTerm(source, row, i) == StepValue(source, row, i)
  {
    EntryIs(source, row, i, i);
    EntryIs(source, row, i - 1, i);
    EntryIs(source, row, i, i - 1);
    if source.Used(row, i) && source.Used(row, i - 1) {
      TwoPairs(row[i - 1], row[i], source.lag[i - 1]);
    }
  }

  lemma {:induction false} TwoPairs(a: real, b: real, c: real)
    ensures a * b * c + b * a * c == 2.0 * a * b * c
  {}

  /** Flux, variance and quality of one target bin. */
  method Accumulate(source: Source, row: Row) returns (flux: Num, variance: Num, dq: Quality)
    requires source.WellFormed() && InRange(row, source.Size())
    ensures flux == source.FluxOut(row)
    ensures variance == source.VarianceOut(row)
    ensures dq == source.DqOut(row)
  {
    ghost var terms := i => VarianceTerm(source, row, i);
    forall i | 0 <= i < source.Size()
      ensures terms(i) == StepValue(source, row, i)
    {
      StepIsTerm(source, row, i);
    }
    VarianceByScan(source, row, terms);
    var total := AccumulateFlux(source, row);
    var union, any := AccumulateDq(source, row);
    var quadratic := AccumulateVariance(source, row, terms);
    if any {
      flux, variance, dq := Val(total), Val(Max(quadratic, 0.0)), union;
    } else {
      flux, variance, dq := Missing, Missing, {RESAMPLE_EDGE};
    }
  }

  lemma {:induction false} RawEntryIs(source: Source, first: Row, second: Row, i: int, j: int)
    ensures i !in first || j !in second ==> source.RawEntry(first, second, i, j) == 0.0
    ensures i in first && j in second ==> source.RawEntry(first, second, i, j) == first[i] * second[j] * source.RawC(i, j)
  {}

  /** What the shared source bin i adds to the lag of two targets: its variance at both weights, used or not. */
  function SharedPart(source: Source, first: Row, second: Row, i: int): real
    requires source.WellFormed() && InRange(first, source.Size()) && i in first
  {
    if i in second && source.variance[i].Val? then first[i] * second[i] * source.variance[i].v else 0.0
  }

  /** What its neighbour j adds: the input lag of the pair at both weights. */
  function NeighbourPart(source: Source, first: Row, second: Row, i: int, j: int): real
    requires source.WellFormed() && InRange(first, source.Size()) && InRange(second, source.Size())
    requires i in first && (j == i - 1 || j == i + 1)
  {
    if j in second then first[i] * second[j] * source.lag[if j < i then j else i] else 0.0
  }

  ghost function RawStepValue(source: Source, first: Row, second: Row, i: int): real
    requires source.WellFormed() && 0 <= i < source.Size()
    requires InRange(first, source.Size()) && InRange(second, source.Size())
  {
    if i !in first then 0.0
    else
      SharedPart(source, first, second, i) + NeighbourPart(source, first, second, i, i - 1) + NeighbourPart(source,
          first, second, i, i + 1)
  }

  lemma {:induction false} SharedIsEntry(source: Source, first: Row, second: Row, i: int)
    requires source.WellFormed() && InRange(first, source.Size()) && i in first
    ensures SharedPart(source, first, second, i) == source.RawEntry(first, second, i, i)
  {
    RawEntryIs(source, first, second, i, i);
    if source.variance[i].Missing? {
      assert source.RawC(i, i) == 0.0;
    }
  }

  lemma {:induction false} NeighbourIsEntry(source: Source, first: Row, second: Row, i: int, j: int)
    requires source.WellFormed() && InRange(first, source.Size()) && InRange(second, source.Size())
    requires i in first && (j == i - 1 || j == i + 1)
    ensures NeighbourPart(source, first, second, i, j) == source.RawEntry(first, second, i, j)
  {
    RawEntryIs(source, first, second, i, j);
  }

  lemma {:induction false} RawStep(source: Source, first: Row, second: Row, i: int)
    requires source.WellFormed() && 0 <= i < source.Size()
    requires InRange(first, source.Size()) && InRange(second, source.Size())
    ensures source.RawTerm(first, second, i) == RawStepValue(source, first, second, i)
  {
    RawEntryIs(source, first, second, i, i);
    RawEntryIs(source, first, second, i, i - 1);
    RawEntryIs(source, first, second, i, i + 1);
    if i in first {
      SharedIsEntry(source, first, second, i);
      NeighbourIsEntry(source, first, second, i, i - 1);
      NeighbourIsEntry(source, first, second, i, i + 1);
    }
  }

  method AccumulateLag(source: Source, first: Row, second: Row, ghost terms: int -> real) returns (total: real, finite: bool)
    requires source.WellFormed() && InRange(first, source.Size()) && InRange(second, source.Size())
    requires forall i :: 0 <= i < source.Size() ==> terms(i) == RawStepValue(source, first, second, i)
    ensures total == Sum(0, source.Size(), terms)
    ensures finite <==> !source.SharesNonFinite(first, second)
  {
    total, finite := 0.0, true;
    for index := 0 to source.Size()
      invariant total == Sum(0, index, terms)
      invariant finite <==> forall i :: 0 <= i < index && i in first && i in second ==> source.variance[i].Val?
    {
      if index in first {
        if index in second && source.variance[index].Missing? {
          finite := false;
        }
        total := total + (SharedPart(source, first, second, index) + NeighbourPart(source, first, second, index, index - 1)
                          + NeighbourPart(source, first, second, index, index + 1));
      }
    }
  }

  /** The lag-1 entry of two neighbouring target bins. */
  method LagEntry(source: Source, first: Row, second: Row) returns (value: Num)
    requires source.WellFormed() && InRange(first, source.Size()) && InRange(second, source.Size())
    ensures value == source.LagOut(first, second)
  {
    ghost var terms := i => source.RawTerm(first, second, i);
    forall i | 0 <= i < source.Size()
      ensures terms(i) == RawStepValue(source, first, second, i)
    {
      RawStep(source, first, second, i);
    }
    var total, finite := AccumulateLag(source, first, second, terms);
    SumCongruence(0, source.Size(), terms, i => source.RawTerm(first, second, i));
    value := if finite then Val(total) else Missing;
  }

  // -------------------------------------------------------------- the whole step

  /** The row the all-pairs definition gives target bin t. */
  ghost function WeightRow(se: seq<real>, te: seq<real>, t: int): Row {
    map i | 0 <= i < |se| - 1 && Weight(se, te, t, i) > 0.0 :: Weight(se, te, t, i)
  }

  lemma {:induction false} SweepRow(row: Row, se: seq<real>, te: seq<real>, t: int)
    requires RowOf(row, se, te, t)
    ensures row == WeightRow(se, te, t)
  {}

  lemma {:induction false} WeightRowIsRow(se: seq<real>, te: seq<real>, t: int)
    ensures RowOf(WeightRow(se, te, t), se, te, t)
  {}

  datatype Resampled = Resampled(flux: seq<Num>, variance: seq<Num>, dq: seq<Quality>, lag: seq<Num>)

  /** Output of one order: every column is what the all-pairs overlap weights prescribe. */
  ghost predicate IsResampled(out: Resampled, source: Source, te: seq<real>)
    requires |te| >= 1
  {
    && |out.flux| == |out.variance| == |out.dq| == |out.lag| == |te| - 1
    && forall t :: 0 <= t < |te| - 1 ==>
         && out.flux[t] == source.FluxOut(WeightRow(source.edges, te, t))
         && out.variance[t] == source.VarianceOut(WeightRow(source.edges, te, t))
         && out.dq[t] == source.DqOut(WeightRow(source.edges, te, t))
         && out.lag[t] == LagColumn(source, te, t)
  }

  ghost function LagColumn(source: Source, te: seq<real>, t: int): Num {
    if t + 2 >= |te| then Val(0.0)
    else source.LagOut(WeightRow(source.edges, te, t), WeightRow(source.edges, te, t + 1))
  }

  function Reverse<T>(s: seq<T>): (r: seq<T>)
    ensures |r| == |s| && forall i :: 0 <= i < |s| ==> r[i] == s[|s| - 1 - i]
  {
    seq(|s|, i requires 0 <= i < |s| => s[|s| - 1 - i])
  }

  predicate Descending(x: seq<real>) { |x| >= 2 && x[0] > x[|x| - 1] }

  function Ascend<T>(x: seq<real>, s: seq<T>): (r: seq<T>)
    ensures |r| == |s|
  {
    if Descending(x) then Reverse(s) else s
  }

  function LagOrZeros(lag: Option<seq<real>>, n: int): seq<real>
    requires n >= 0
  {
    match lag
    case None => seq(n, _ => 0.0)
    case Some(column) => column
  }

  /** The samples in ascending order, as the call site hands them over. */
  function SourceOf(x: seq<real>, y: seq<Num>, variance: seq<Num>, dq: seq<Quality>, lag: Option<seq<real>>): Source
    requires ValidCentres(Ascend(x, x))
  {
    Source(Edges(Ascend(x, x)), Ascend(x, y), Ascend(x, variance), Ascend(x, dq),
           LagOrZeros(if lag.Some? then Some(Ascend(x, lag.value)) else None, |x|))
  }

  method FluxColumns(source: Source, te: seq<real>, weights: seq<Row>)
    returns (flux: seq<Num>, variance: seq<Num>, dq: seq<Quality>)
    requires source.WellFormed() && Grids(source.edges, te) && RowsOf(weights, source.edges, te)
    ensures |flux| == |variance| == |dq| == |weights|
    ensures forall t :: 0 <= t < |weights| ==> flux[t] == source.FluxOut(weights[t])
    ensures forall t :: 0 <= t < |weights| ==> variance[t] == source.VarianceOut(weights[t])
    ensures forall t :: 0 <= t < |weights| ==> dq[t] == source.DqOut(weights[t])
  {
    var n := |weights|;
    flux, variance, dq := seq(n, _ => Missing), seq(n, _ => Missing), seq(n, _ => {});
    for t := 0 to n
      invariant |flux| == |variance| == |dq| == n
      invariant forall k :: 0 <= k < t ==> flux[k] == source.FluxOut(weights[k])
      invariant forall k :: 0 <= k < t ==> variance[k] == source.VarianceOut(weights[k])
      invariant forall k :: 0 <= k < t ==> dq[k] == source.DqOut(weights[k])
    {
      var f, v, q := Accumulate(source, weights[t]);
      flux, variance, dq := flux[t := f], variance[t := v], dq[t := q];
    }
  }

  method LagColumnOf(source: Source, te: seq<real>, weights: seq<Row>) returns (lag: seq<Num>)
    requires source.WellFormed() && Grids(source.edges, te) && RowsOf(weights, source.edges, te)
    ensures |lag| == |weights|
    ensures forall t :: 0 <= t < |weights| - 1 ==> lag[t] == source.LagOut(weights[t], weights[t + 1])
    ensures lag[|weights| - 1] == Val(0.0)
  {
    var n := |weights|;
    lag := seq(n, _ => Val(0.0));
    for t := 0 to n - 1
      invariant |lag| == n && lag[n - 1] == Val(0.0)
      invariant forall k :: 0 <= k < t ==> lag[k] == source.LagOut(weights[k], weights[k + 1])
    {
      var c := LagEntry(source, weights[t], weights[t + 1]);
      lag := lag[t := c];
    }
  }

  lemma {:induction false} ColumnsAreResampled(out: Resampled, source: Source, te: seq<real>, weights: seq<Row>)
    requires |te| >= 2 && RowsOf(weights, source.edges, te)
    requires |out.flux| == |out.variance| == |out.dq| == |out.lag| == |weights|
    requires forall t :: 0 <= t < |weights| ==> out.flux[t] == source.FluxOut(weights[t])
    requires forall t :: 0 <= t < |weights| ==> out.variance[t] == source.VarianceOut(weights[t])
    requires forall t :: 0 <= t < |weights| ==> out.dq[t] == source.DqOut(weights[t])
    requires forall t :: 0 <= t < |weights| - 1 ==> out.lag[t] == source.LagOut(weights[t], weights[t + 1])
    requires out.lag[|weights| - 1] == Val(0.0)
    ensures IsResampled(out, source, te)
  {
    forall t | 0 <= t < |weights|
      ensures out.lag[t] == LagColumn(source, te, t) && weights[t] == WeightRow(source.edges, te, t)
    {
      SweepRow(weights[t], source.edges, te, t);
      if t + 1 < |weights| {
        SweepRow(weights[t + 1], source.edges, te, t + 1);
      }
    }
  }

  /** The step fails exactly when one of the coordinate lists has fewer than two entries or is not monotone. */
  method FluxConservingResample(x: seq<real>, y: seq<Num>, variance: seq<Num>, dq: seq<Quality>,
                                targetX: seq<real>, lag: Option<seq<real>>)
    returns (r: Result<Resampled>)
    requires |x| == |y| == |variance| == |dq| && (lag.Some? ==> |lag.value| == |x|)
    ensures r.Success? <==> ValidCentres(Ascend(x, x)) && ValidCentres(targetX)
    ensures r.Success? ==> IsResampled(r.value, SourceOf(x, y, variance, dq, lag), Edges(targetX))
  {
    if !ValidCentres(Ascend(x, x)) || !ValidCentres(targetX) {
      return Failure("wavelength coordinates must be strictly increasing");
    }
    var source := SourceOf(x, y, variance, dq, lag);
    var te := Edges(targetX);
    EdgesIncrease(Ascend(x, x));
    EdgesIncrease(targetX);
    var weights := Sweep(source.edges, te);
    var flux, var_, quality := FluxColumns(source, te, weights);
    var covariance := LagColumnOf(source, te, weights);
    r := Success(Resampled(flux, var_, quality, covariance));
    ColumnsAreResampled(r.value, source, te, weights);
  }
}
