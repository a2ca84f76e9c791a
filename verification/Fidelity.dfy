/** Where the reported columns of the resampling step are, and are not, those of the samples it used. */
module Fidelity {
  import opened Numeric
  import opened Bins
  import opened Banded
  import opened Resample
  import opened Conservation
  import opened VarianceBudget

  // ------------------------------------------- lag-1 with unusable samples

  /** What the lag column counts at a pair of samples that are not both usable: the flux sums do not use them. */
  ghost function UnusedEntry(source: Source, first: Row, second: Row, i: int, j: int): real {
    if source.Ok(i) && source.Ok(j) then 0.0 else source.RawEntry(first, second, i, j)
  }

  /** The terms of row i on the three diagonals. */
  ghost function Neighbours(n: int, i: int, e: (int, int) -> real): real {
    e(i, i) + (if i > 0 then e(i, i - 1) else 0.0) + (if i + 1 < n then e(i, i + 1) else 0.0)
  }

  /** The sum of those entries. */
  ghost function Excess(source: Source, first: Row, second: Row): real {
    Sum(0, source.Size(), i => Neighbours(source.Size(), i, (j, k) => UnusedEntry(source, first, second, j, k)))
  }

  lemma {:induction false} EntrySplits(source: Source, first: Row, second: Row, i: int, j: int)
    requires source.WellFormed() && 0 <= i < source.Size() && 0 <= j < source.Size()
    ensures source.RawEntry(first, second, i, j) == source.Entry(first, second, i, j) + UnusedEntry(source, first, second, i, j)
  {
    var a, b, c := source.W(first, i), source.W(second, j), source.C(i, j);
    assert source.Entry(first, second, i, j) == a * b * c;
    if source.Ok(i) && source.Ok(j) {
      assert source.RawEntry(first, second, i, j) == source.RawW(first, i) * source.RawW(second, j) * source.RawC(i, j);
    }
  }

  lemma {:induction false} OffBand(source: Source, first: Row, second: Row, i: int, j: int)
    requires j > i + 1 || i > j + 1
    ensures source.Entry(first, second, i, j) == 0.0
  {
    assert source.C(i, j) == 0.0;
  }

  lemma {:induction false} UsedRow(source: Source, first: Row, second: Row, i: int, e: (int, int) -> real)
    requires source.WellFormed() && 0 <= i < source.Size()
    requires forall j, k :: e(j, k) == source.Entry(first, second, j, k)
    ensures Sum(0, source.Size(), j => e(i, j)) == Neighbours(source.Size(), i, e)
  {
    var row := j => e(i, j);
    forall j | 0 <= j < source.Size() && (j > i + 1 || i > j + 1)
      ensures row(j) == 0.0
    {
      OffBand(source, first, second, i, j);
    }
    RowByNeighbours(source.Size(), i, row);
    SumCongruence(0, source.Size(), row, j => e(i, j));
  }

  /** The covariance of two target bins as a sum over neighbours. */
  lemma {:induction false} CovarianceByNeighbours(source: Source, first: Row, second: Row, terms: int -> real,
                                                  e: (int, int) -> real)
    requires source.WellFormed()
    requires forall j, k :: e(j, k) == source.Entry(first, second, j, k)
    requires forall i :: 0 <= i < source.Size() ==> terms(i) == Neighbours(source.Size(), i, e)
    ensures source.Covariance(first, second) == Sum(0, source.Size(), terms)
  {
    forall i | 0 <= i < source.Size()
      ensures terms(i) == Sum(0, source.Size(), j => e(i, j))
    {
      UsedRow(source, first, second, i, e);
    }
    DoubleSumCongruence(source.Size(), e, terms);
    DoubleSumSame(source.Size(), e, (i, j) => source.Entry(first, second, i, j));
  }

  lemma {:induction false} TermSplits(source: Source, first: Row, second: Row, i: int, e: (int, int) -> real,
                                      u: (int, int) -> real)
    requires source.WellFormed() && 0 <= i < source.Size()
    requires forall j, k :: e(j, k) == source.Entry(first, second, j, k)
    requires forall j, k :: u(j, k) == UnusedEntry(source, first, second, j, k)
    ensures source.RawTerm(first, second, i) == Neighbours(source.Size(), i, e) + Neighbours(source.Size(), i, u)
  {
    EntrySplits(source, first, second, i, i);
    if i > 0 {
      EntrySplits(source, first, second, i, i - 1);
    }
    if i + 1 < source.Size() {
      EntrySplits(source, first, second, i, i + 1);
    }
  }

  lemma {:induction false} RawSumSplits(source: Source, first: Row, second: Row, raw: int -> real)
    requires source.WellFormed()
    requires forall i :: 0 <= i < source.Size() ==> raw(i) == source.RawTerm(first, second, i)
    ensures Sum(0, source.Size(), raw) == source.Covariance(first, second) + Excess(source, first, second)
  {
    var n := source.Size();
    var e := (i: int, j: int) => source.Entry(first, second, i, j);
    var u := (i: int, j: int) => UnusedEntry(source, first, second, i, j);
    var used, unused := i => Neighbours(n, i, e), i => Neighbours(n, i, u);
    forall i | 0 <= i < n
      ensures raw(i) == used(i) + unused(i)
    {
      TermSplits(source, first, second, i, e, u);
    }
    SumAdd(0, n, used, unused, raw);
    CovarianceByNeighbours(source, first, second, used, e);
    SumCongruence(0, n, unused, i => Neighbours(n, i, (j, k) => UnusedEntry(source, first, second, j, k)));
  }

  /** Whatever lag column comes in, the reported lag-1 covariance of two target bins is the covariance of the values
      reported plus the excess; so it is that covariance exactly when no shared sample is without a finite variance and
      the excess vanishes. */
  lemma {:induction false} ReportedLag(source: Source, first: Row, second: Row)
    requires source.WellFormed()
    ensures source.LagOut(first, second).Val? <==> !source.SharesNonFinite(first, second)
    ensures source.LagOut(first, second).Val? <==>
      forall i :: 0 <= i < source.Size() && i in first && i in second ==> source.variance[i].Val?
    ensures source.LagOut(first, second).Val? ==>
      source.LagOut(first, second).v == source.Covariance(first, second) + Excess(source, first, second)
    ensures source.LagOut(first, second) == Val(source.Covariance(first, second)) <==>
      !source.SharesNonFinite(first, second) && Excess(source, first, second) == 0.0
  {
    var raw := i => source.RawTerm(first, second, i);
    RawSumSplits(source, first, second, raw);
    SumCongruence(0, source.Size(), raw, i => source.RawTerm(first, second, i));
  }

  // -------------------------------------------------- the same without an input column

  lemma {:induction false} RawWithoutLag(source: Source, first: Row, second: Row, i: int)
    requires NoLag(source)
    ensures source.RawTerm(first, second, i) == source.RawEntry(first, second, i, i)
  {
    assert source.RawC(i, i - 1) == 0.0 && source.RawC(i, i + 1) == 0.0;
    assert source.RawEntry(first, second, i, i - 1) == 0.0;
    assert source.RawEntry(first, second, i, i + 1) == 0.0;
  }

  lemma {:induction false} RawDiagonal(source: Source, first: Row, second: Row, i: int)
    requires source.WellFormed() && 0 <= i < source.Size()
    ensures !(i in first && i in second) ==> source.RawEntry(first, second, i, i) == 0.0
    ensures i in first && i in second && source.variance[i].Val?
        ==> source.RawEntry(first, second, i, i) == first[i] * second[i] * source.variance[i].v
  {
    RawEntryIs(source, first, second, i, i);
  }

  lemma {:induction false} UsedDiagonal(source: Source, first: Row, second: Row, i: int)
    requires source.WellFormed() && 0 <= i < source.Size()
    ensures !(i in first && i in second && source.Ok(i)) ==> source.Entry(first, second, i, i) == 0.0
    ensures i in first && i in second && source.Ok(i)
        ==> source.Entry(first, second, i, i) == first[i] * second[i] * source.variance[i].v
  {
    var a, b, c := source.W(first, i), source.W(second, i), source.V(i);
    assert source.Entry(first, second, i, i) == a * b * c;
  }

  ghost predicate OnlyShared(first: Row, second: Row, k: int) {
    forall i :: i in first && i in second ==> i == k
  }

  /** With one shared source bin k, both forms are decided there. */
  lemma {:induction false} LagAtShared(source: Source, first: Row, second: Row, k: int, raw: int -> real, used: int -> real)
    requires source.WellFormed() && NoLag(source)
    requires InRange(first, source.Size()) && InRange(second, source.Size())
    requires 0 <= k < source.Size() && OnlyShared(first, second, k)
    requires forall i :: raw(i) == source.RawTerm(first, second, i)
    requires forall i :: used(i) == source.Entry(first, second, i, i)
    ensures Sum(0, source.Size(), raw) == raw(k)
    ensures source.Covariance(first, second) == used(k)
  {
    forall i | 0 <= i < source.Size() && i != k
      ensures raw(i) == 0.0 && used(i) == 0.0
    {
      RawWithoutLag(source, first, second, i);
      RawDiagonal(source, first, second, i);
      UsedDiagonal(source, first, second, i);
    }
    SumSingle(0, source.Size(), k, raw);
    SumSingle(0, source.Size(), k, used);
    Diagonal(source, first, second, used);
  }

  /** The reported lag-1 covariance of two neighbouring targets is the covariance of the values actually
      reported exactly when the source bin they share is usable or has zero variance: the column reads the
      variance of the shared sample without asking whether the flux sum used it. */
  lemma {:induction false} ReportedLagIff(source: Source, first: Row, second: Row, k: int)
    requires source.WellFormed() && NoLag(source)
    requires InRange(first, source.Size()) && InRange(second, source.Size())
    requires 0 <= k < source.Size() && OnlyShared(first, second, k)
    ensures source.LagOut(first, second) == Val(source.Covariance(first, second))
       <==> (k in first && k in second ==> source.Ok(k) || source.variance[k] == Val(0.0))
  {
    var raw := i => source.RawTerm(first, second, i);
    var used := i => source.Entry(first, second, i, i);
    LagAtShared(source, first, second, k, raw, used);
    SumCongruence(0, source.Size(), raw, i => source.RawTerm(first, second, i));
    RawWithoutLag(source, first, second, k);
    RawDiagonal(source, first, second, k);
    UsedDiagonal(source, first, second, k);
    if k in first && k in second {
      if source.variance[k].Val? {
        assert !source.SharesNonFinite(first, second);
      } else {
        assert source.SharesNonFinite(first, second);
      }
    } else {
      assert !source.SharesNonFinite(first, second);
    }
  }

  /** The condition of ReportedLagIff for every pair of neighbouring targets the sweep produces. */
  lemma {:induction false} LagWithoutColumn(source: Source, te: seq<real>, rows: seq<Row>, t: int)
    requires source.WellFormed() && NoLag(source) && Grids(source.edges, te) && RowsOf(rows, source.edges, te)
    requires 0 <= t < |rows| - 1
    ensures source.LagOut(rows[t], rows[t + 1]) == Val(source.Covariance(rows[t], rows[t + 1]))
       <==> forall i :: i in rows[t] && i in rows[t + 1] ==> source.Ok(i) || source.variance[i] == Val(0.0)
  {
    var k := if i :| i in rows[t] && i in rows[t + 1] then i else 0;
    forall i | i in rows[t] && i in rows[t + 1]
      ensures i == k
    {
      ConsecutiveRowsShareOne(rows, source.edges, te, t, i, k);
    }
    ReportedLagIff(source, rows[t], rows[t + 1], k);
  }

  /** A missing flux next to a plain sample. */
  const HALF_USABLE: Source := Source([0.0, 2.0, 4.0], [Missing, Val(1.0)], [Val(1.0), Val(1.0)], [{}, {}], [0.0, 0.0])

  /** Targets that share the unusable sample. */
  const SHARING: seq<real> := [0.0, 1.0, 4.0]

  lemma {:induction false} HalfShares(se: seq<real>, te: seq<real>)
    requires se == HALF_USABLE.edges && te == SHARING
    ensures Weight(se, te, 0, 0) == 0.5 && Weight(se, te, 1, 0) == 0.5
  {
    WeightIs(se, te, 0, 0, 0.5, 2.0);
    WeightIs(se, te, 1, 0, 0.5, 2.0);
  }

  lemma {:induction false} InTargetRow(se: seq<real>, te: seq<real>, t: int, i: int)
    requires 0 <= i < |se| - 1 && Weight(se, te, t, i) > 0.0
    ensures i in WeightRow(se, te, t)
  {}

  lemma {:induction false} HalfGrids(se: seq<real>, te: seq<real>)
    requires se == HALF_USABLE.edges && te == SHARING
    ensures Grids(se, te)
  {}

  lemma {:induction false} SharesUnusable(se: seq<real>, te: seq<real>)
    requires |se| >= 2 && Weight(se, te, 0, 0) == 0.5 && Weight(se, te, 1, 0) == 0.5
    ensures 0 in WeightRow(se, te, 0) && 0 in WeightRow(se, te, 1)
  {
    InTargetRow(se, te, 0, 0);
    InTargetRow(se, te, 1, 0);
  }

  lemma {:induction false} TwoRows(se: seq<real>, te: seq<real>)
    requires |te| == 3
    ensures RowsOf([WeightRow(se, te, 0), WeightRow(se, te, 1)], se, te)
  {
    WeightRowIsRow(se, te, 0);
    WeightRowIsRow(se, te, 1);
  }

  /** A sample that two targets share half and half, without a usable flux but with a variance. */
  ghost predicate SharesUnusableSample(source: Source, te: seq<real>) {
    && source.WellFormed() && NoLag(source) && Grids(source.edges, te) && |te| == 3
    && Weight(source.edges, te, 0, 0) == 0.5 && Weight(source.edges, te, 1, 0) == 0.5
    && !source.Ok(0) && source.variance[0] == Val(1.0)
  }

  /** There the reported lag is not the covariance of the two reported values. */
  lemma {:induction false} LagOfUnusable(source: Source, te: seq<real>)
    requires SharesUnusableSample(source, te)
    ensures LagColumn(source, te, 0)
         != Val(source.Covariance(WeightRow(source.edges, te, 0), WeightRow(source.edges, te, 1)))
  {
    SharesUnusable(source.edges, te);
    TwoRows(source.edges, te);
    LagWithoutColumn(source, te, [WeightRow(source.edges, te, 0), WeightRow(source.edges, te, 1)], 0);
  }

  lemma {:induction false} HalfUsableShares(source: Source, te: seq<real>)
    requires source == HALF_USABLE && te == SHARING
    ensures SharesUnusableSample(source, te)
  {
    HalfGrids(source.edges, te);
    HalfShares(source.edges, te);
  }

  lemma {:induction false} LagOfUnusableSample()
    ensures SharesUnusableSample(HALF_USABLE, SHARING)
    ensures LagColumn(HALF_USABLE, SHARING, 0)
         != Val(HALF_USABLE.Covariance(WeightRow(HALF_USABLE.edges, SHARING, 0), WeightRow(HALF_USABLE.edges, SHARING, 1)))
  {
    HalfUsableShares(HALF_USABLE, SHARING);
    LagOfUnusable(HALF_USABLE, SHARING);
  }

  // -------------------------------------------------------------- quality flags

  lemma {:induction false} UnionMembers(source: Source, row: Row, n: int, bit: nat)
    requires source.WellFormed() && n <= source.Size()
    ensures bit in source.DqUnion(row, n) <==> exists i :: 0 <= i < n && source.Used(row, i) && bit in source.dq[i]
    decreases n
  {
    if n > 0 {
      UnionMembers(source, row, n - 1, bit);
    }
  }

  /** A target carries exactly the flags of the samples it used; with none, exactly RESAMPLE_EDGE. */
  lemma {:induction false} FlagsCarried(source: Source, row: Row, bit: nat)
    requires source.WellFormed() && InRange(row, source.Size())
    ensures bit in source.DqOut(row) <==>
      || (exists i :: 0 <= i < source.Size() && source.Used(row, i) && bit in source.dq[i])
      || (source.Empty(row) && bit == RESAMPLE_EDGE)
  {
    UnionMembers(source, row, source.Size(), bit);
  }

  // ---------------------------------------------------------- the whole step again

  /** What a caller of the step gets back when it hands over usable, uncorrelated samples of one order and
      a grid that spans them. */
  lemma {:induction false} StepConserves(out: Resampled, source: Source, te: seq<real>)
    requires source.WellFormed() && source.AllOk() && NoLag(source) && Grids(source.edges, te)
    requires IsResampled(out, source, te) && Spans(source.edges, te)
    ensures Total(out.flux) == Total(source.flux)
    ensures Budget(out.variance, out.lag) <= Total(source.variance)
    ensures Budget(out.variance, out.lag) == Total(source.variance)
       <==> forall i :: 0 <= i < source.Size() && source.V(i) > 0.0 ==> !FeedsMoreThanTwo(source, te, i)
  {
    var rows := seq(|te| - 1, t => WeightRow(source.edges, te, t));
    forall t | 0 <= t < |rows|
      ensures RowOf(rows[t], source.edges, te, t)
      ensures t + 1 < |rows| ==> out.lag[t] == source.LagOut(rows[t], rows[t + 1])
    {}
    FluxConserved(source, te, rows, out.flux);
    TotalVariance(source, te, rows, out.variance, out.lag);
  }

  lemma {:induction false} SumReversed(n: int, lo: int, f: int -> real, g: int -> real)
    requires 0 <= lo <= n && forall i :: 0 <= i < n ==> g(i) == f(n - 1 - i)
    ensures Sum(lo, n, g) == Sum(0, n - lo, f)
    decreases n - lo
  {
    if lo < n {
      SumSplit(lo, lo + 1, n, g);
      assert Sum(lo, lo, g) == 0.0;
      SumReversed(n, lo + 1, f, g);
    }
  }

  lemma {:induction false} TotalReversed(column: seq<Num>)
    ensures Total(Reverse(column)) == Total(column)
  {
    SumReversed(|column|, 0, i => At(column, i), i => At(Reverse(column), i));
  }

  predicate Usable(y: seq<Num>, variance: seq<Num>)
    requires |y| == |variance|
  {
    forall i :: 0 <= i < |y| ==> y[i].Val? && variance[i].Val? && variance[i].v >= 0.0
  }

  lemma {:induction false} CallIsClean(x: seq<real>, y: seq<Num>, variance: seq<Num>, dq: seq<Quality>)
    requires |x| == |y| == |variance| == |dq| && ValidCentres(Ascend(x, x)) && Usable(y, variance)
    ensures var source := SourceOf(x, y, variance, dq, None);
      source.WellFormed() && source.AllOk() && NoLag(source)
      && Total(source.flux) == Total(y) && Total(source.variance) == Total(variance)
  {
    EdgesIncrease(Ascend(x, x));
    TotalReversed(y);
    TotalReversed(variance);
  }

  /** The same in terms of the call: an order of usable samples, stored in either direction, without a lag column. */
  lemma {:induction false} CallConserves(out: Resampled, x: seq<real>, y: seq<Num>, variance: seq<Num>, dq: seq<Quality>,
                                         targetX: seq<real>)
    requires |x| == |y| == |variance| == |dq| && ValidCentres(Ascend(x, x)) && ValidCentres(targetX) && Usable(y, variance)
    requires Spans(Edges(Ascend(x, x)), Edges(targetX))
    requires IsResampled(out, SourceOf(x, y, variance, dq, None), Edges(targetX))
    ensures Total(out.flux) == Total(y) && Budget(out.variance, out.lag) <= Total(variance)
    ensures out.lag != [] && out.lag[|out.lag| - 1] == Val(0.0)
  {
    EdgesIncrease(Ascend(x, x));
    EdgesIncrease(targetX);
    CallIsClean(x, y, variance, dq);
    StepConserves(out, SourceOf(x, y, variance, dq, None), Edges(targetX));
  }

  /** A sample of variance 1 that three targets share. */
  const SPREAD: Source := Source([0.0, 3.0, 4.0], [Val(1.0), Val(1.0)], [Val(1.0), Val(1.0)], [{}, {}], [0.0, 0.0])

  const THREE_TARGETS: seq<real> := [0.0, 1.0, 2.0, 4.0]

  lemma {:induction false} SpreadGrids(se: seq<real>, te: seq<real>)
    requires se == SPREAD.edges && te == THREE_TARGETS
    ensures Grids(se, te) && Spans(se, te)
    ensures Weight(se, te, 0, 0) > 0.0 && Weight(se, te, 2, 0) > 0.0
  {
    WeightPositive(se, te, 0, 0);
    WeightPositive(se, te, 2, 0);
  }

  lemma {:induction false} SpreadSample(source: Source, te: seq<real>)
    requires source == SPREAD && te == THREE_TARGETS
    ensures source.WellFormed() && source.AllOk() && NoLag(source) && Grids(source.edges, te) && Spans(source.edges, te)
    ensures source.V(0) > 0.0 && FeedsMoreThanTwo(source, te, 0)
  {
    SpreadGrids(source.edges, te);
  }

  /** There the reported variances and lags do not account for all of the input variance. */
  lemma {:induction false} VarianceIsLost(out: Resampled, source: Source, te: seq<real>)
    requires source == SPREAD && te == THREE_TARGETS && IsResampled(out, source, te)
    ensures Spans(source.edges, te) && Budget(out.variance, out.lag) < Total(source.variance)
  {
    SpreadSample(source, te);
    StepConserves(out, source, te);
  }

  // ------------------------------------------------------------------- unusable samples

  /** A sample without a finite flux, or without a finite variance that is not negative. */
  predicate Unusable(y: Num, variance: Num) { y.Missing? || variance.Missing? || variance.v < 0.0 }

  /** A target has a flux and a variance exactly when one of its samples is usable, and a negative quadratic form is cut off. */
  lemma {:induction false} ReportedIff(source: Source, row: Row)
    requires source.WellFormed() && InRange(row, source.Size())
    ensures source.FluxOut(row).Val? <==> exists i :: i in row && !Unusable(source.flux[i], source.variance[i])
    ensures source.VarianceOut(row).Val? <==> source.FluxOut(row).Val?
    ensures source.VarianceOut(row).Val? ==>
      source.VarianceOut(row).v == if source.Covariance(row, row) < 0.0 then 0.0 else source.Covariance(row, row)
  {
    assert forall i :: i in row ==> (source.Used(row, i) <==> !Unusable(source.flux[i], source.variance[i]));
  }

  function Replaced(source: Source, k: nat, y: Num, variance: Num, dq: Quality): Source
    requires k < |source.flux| && k < |source.variance| && k < |source.dq|
  {
    source.(flux := source.flux[k := y], variance := source.variance[k := variance], dq := source.dq[k := dq])
  }

  lemma {:induction false} ReplacedTerms(source: Source, other: Source, row: Row, k: nat, y: Num, variance: Num, dq: Quality)
    requires source.WellFormed() && k < source.Size() && Unusable(source.flux[k], source.variance[k])
    requires Unusable(y, variance) && other == Replaced(source, k, y, variance, dq)
    ensures forall i :: other.Used(row, i) == source.Used(row, i) && other.W(row, i) == source.W(row, i)
    ensures forall i :: other.FluxTerm(row, i) == source.FluxTerm(row, i)
    ensures forall i, j :: other.C(i, j) == source.C(i, j)
  {}

  lemma {:induction false} ReplacedUnion(source: Source, other: Source, row: Row, k: nat, n: int, y: Num, variance: Num,
                                         dq: Quality)
    requires source.WellFormed() && k < source.Size() && Unusable(source.flux[k], source.variance[k])
    requires Unusable(y, variance) && other == Replaced(source, k, y, variance, dq)
    ensures other.DqUnion(row, n) == source.DqUnion(row, n)
    decreases n
  {
    if n > 0 {
      ReplacedUnion(source, other, row, k, n - 1, y, variance, dq);
      ReplacedTerms(source, other, row, k, y, variance, dq);
    }
  }

  /** What an unusable sample holds reaches neither flux, nor variance, nor quality of any target. */
  lemma {:induction false} UnusableHasNoPart(source: Source, k: nat, y: Num, variance: Num, dq: Quality, row: Row)
    requires source.WellFormed() && k < source.Size()
    requires Unusable(source.flux[k], source.variance[k]) && Unusable(y, variance)
    ensures var other := Replaced(source, k, y, variance, dq);
      other.FluxOut(row) == source.FluxOut(row) && other.VarianceOut(row) == source.VarianceOut(row)
      && other.DqOut(row) == source.DqOut(row)
  {
    var other, n := Replaced(source, k, y, variance, dq), source.Size();
    ReplacedTerms(source, other, row, k, y, variance, dq);
    SumCongruence(0, n, i => other.FluxTerm(row, i), i => source.FluxTerm(row, i));
    DoubleSumSame(n, (i, j) => other.Entry(row, row, i, j), (i, j) => source.Entry(row, row, i, j));
    ReplacedUnion(source, other, row, k, n, y, variance, dq);
  }
}
