/** Total variance through the resampling step, the lag-1 column with unusable samples, and quality flags. */
module VarianceBudget {
  import opened Numeric
  import opened Bins
  import opened Banded
  import opened Resample
  import opened Conservation

  // -------------------------------------------- one source bin over all targets

  /** Variance plus twice the lag-1 covariance that one target receives from a unit-variance source bin
      with weight a there and b in the next target. */
  ghost function KeptTerm(a: real, b: real): real { a * a + 2.0 * a * b }

  ghost function Twice(a: real, b: real): real { 2.0 * a * b }

  /** Twice the products of weights at least two targets apart, among the first k targets. */
  ghost function Lost(u: int -> real, k: int): real
    decreases k
  {
    if k <= 0 then 0.0 else Lost(u, k - 1) + Twice(u(k - 1), Sum(0, k - 2, u))
  }

  /** The squared column sum splits into the kept part and the lost part. */
  lemma {:induction false} SquareOfSum(u: int -> real, k: int, kept: int -> real)
    requires k >= 1
    requires forall t :: 0 <= t < k ==> kept(t) == KeptTerm(u(t), u(t + 1))
    ensures Squared(Sum(0, k, u), Twice(u(k - 1), u(k)), Sum(0, k, kept), Lost(u, k))
    decreases k
  {
    assert Sum(0, k, u) == Sum(0, k - 1, u) + u(k - 1);
    assert Sum(0, k, kept) == Sum(0, k - 1, kept) + kept(k - 1);
    assert kept(k - 1) == KeptTerm(u(k - 1), u(k - 1 + 1));
    if k == 1 {
    } else {
      SquareOfSum(u, k - 1, kept);
      assert Sum(0, k - 1, u) == Sum(0, k - 2, u) + u(k - 2);
      SquareStep(Sum(0, k - 2, u), u(k - 2), u(k - 1), u(k), Sum(0, k - 1, u), Sum(0, k, u),
                 Sum(0, k - 1, kept), Lost(u, k - 1));
    }
  }

  ghost predicate Squared(total: real, next: real, kept: real, lost: real) {
    total * total + next == kept + lost
  }

  lemma {:induction false} SquareStep(s: real, a: real, b: real, c: real, y: real, x: real, kept: real, lost: real)
    requires y == s + a && x == y + b
    requires Squared(y, Twice(a, b), kept, lost)
    ensures Squared(x, Twice(b, c), kept + KeptTerm(b, c), lost + Twice(b, s))
  {
    assert x * x == y * y + 2.0 * b * y + b * b;
    assert 2.0 * b * y == 2.0 * b * s + 2.0 * a * b;
  }

  ghost predicate Apart(u: int -> real, k: int) {
    exists t, s :: 0 <= t && t + 2 <= s < k && u(t) > 0.0 && u(s) > 0.0
  }

  lemma {:induction false} ProductSign(a: real, b: real)
    requires a >= 0.0 && b >= 0.0
    ensures Twice(a, b) >= 0.0
    ensures Twice(a, b) == 0.0 <==> a == 0.0 || b == 0.0
  {
    if a > 0.0 && b > 0.0 {
      assert a * b > 0.0;
    }
  }

  /** Something is lost exactly when two weights at least two targets apart are positive. */
  lemma {:induction false} LostIff(u: int -> real, k: int)
    requires forall t :: 0 <= t < k ==> u(t) >= 0.0
    ensures Lost(u, k) >= 0.0
    ensures Lost(u, k) == 0.0 <==> !Apart(u, k)
    decreases k
  {
    if k > 0 {
      LostIff(u, k - 1);
      SumNonNegative(0, k - 2, u);
      ProductSign(u(k - 1), Sum(0, k - 2, u));
      PrefixSign(u, k - 2);
      if Apart(u, k) && !Apart(u, k - 1) {
        var t, s :| 0 <= t && t + 2 <= s < k && u(t) > 0.0 && u(s) > 0.0;
        assert s == k - 1;
      }
      if u(k - 1) > 0.0 && Sum(0, k - 2, u) > 0.0 {
        var t :| 0 <= t < k - 2 && u(t) > 0.0;
        assert t + 2 <= k - 1 < k;
      }
    }
  }

  lemma {:induction false} PrefixSign(u: int -> real, k: int)
    requires forall t :: 0 <= t < k ==> u(t) >= 0.0
    ensures Sum(0, k, u) > 0.0 <==> exists t :: 0 <= t < k && u(t) > 0.0
  {
    if t :| 0 <= t < k && u(t) > 0.0 {
      SumAtLeastTerm(0, k, t, u);
    } else {
      SumZero(0, k, u);
    }
  }

  /** A source bin fully covered by the targets keeps at most its variance, and keeps all of it
      exactly when it feeds no two targets at least two apart. */
  lemma {:induction false} KeptFraction(u: int -> real, m: int, kept: int -> real)
    requires m >= 1 && u(m) == 0.0 && Sum(0, m, u) == 1.0
    requires forall t :: 0 <= t < m ==> u(t) >= 0.0
    requires forall t :: 0 <= t < m ==> kept(t) == KeptTerm(u(t), u(t + 1))
    ensures Sum(0, m, kept) <= 1.0
    ensures Sum(0, m, kept) == 1.0 <==> !Apart(u, m)
  {
    SquareOfSum(u, m, kept);
    LostIff(u, m);
    assert Twice(u(m - 1), u(m)) == 0.0;
  }

  // ------------------------------------------------------- all bins, all targets

  /** Samples are uncorrelated: the pipeline passes no lag column into the step. */
  ghost predicate NoLag(source: Source) { forall i :: source.Lag(i) == 0.0 }

  lemma {:induction false} Diagonal(source: Source, first: Row, second: Row, diagonal: int -> real)
    requires source.WellFormed() && NoLag(source)
    requires forall i :: diagonal(i) == source.Entry(first, second, i, i)
    ensures source.Covariance(first, second) == Sum(0, source.Size(), diagonal)
  {
    var e := (i: int, j: int) => source.Entry(first, second, i, j);
    forall i, j | i != j
      ensures e(i, j) == 0.0
    {}
    DoubleSumByScan(source.Size(), e, diagonal);
    DoubleSumSame(source.Size(), e, (i, j) => source.Entry(first, second, i, j));
  }

  lemma {:induction false} VarianceValue(source: Source, row: Row, diagonal: int -> real)
    requires source.WellFormed() && NoLag(source)
    requires forall i :: diagonal(i) == source.Entry(row, row, i, i)
    ensures ValueOr0(source.VarianceOut(row)) == Sum(0, source.Size(), diagonal)
  {
    Diagonal(source, row, row, diagonal);
    forall i
      ensures diagonal(i) >= 0.0
      ensures source.Empty(row) ==> diagonal(i) == 0.0
    {}
    SumNonNegative(0, source.Size(), diagonal);
    if source.Empty(row) {
      SumZero(0, source.Size(), diagonal);
    }
  }

  lemma {:induction false} LagValue(source: Source, first: Row, second: Row, diagonal: int -> real)
    requires source.WellFormed() && source.AllOk() && NoLag(source)
    requires InRange(first, source.Size()) && InRange(second, source.Size())
    requires forall i :: diagonal(i) == source.Entry(first, second, i, i)
    ensures ValueOr0(source.LagOut(first, second)) == Sum(0, source.Size(), diagonal)
  {
    LagIsBilinear(source, first, second);
    Diagonal(source, first, second, diagonal);
  }

  ghost function NextRow(rows: seq<Row>, t: int): Row
  {
    if 0 <= t < |rows| - 1 then rows[t + 1] else map[]
  }

  lemma {:induction false} KeptEntries(source: Source, first: Row, second: Row, own: int -> real,
                                       shared: int -> real, terms: int -> real)
    requires forall i :: own(i) == source.Entry(first, first, i, i)
    requires forall i :: shared(i) == source.Entry(first, second, i, i)
    requires forall i :: terms(i) == Times(KeptTerm(source.W(first, i), source.W(second, i)), source.V(i))
    ensures forall i :: terms(i) == 1.0 * own(i) + 2.0 * shared(i)
  {
    forall i
      ensures terms(i) == 1.0 * own(i) + 2.0 * shared(i)
    {}
  }

  /** What one target contributes to the variance budget, as a weighted sum over source bins. */
  lemma {:induction false} TargetBudget(source: Source, first: Row, second: Row, own: int -> real,
                                        shared: int -> real, terms: int -> real)
    requires source.WellFormed() && source.AllOk() && NoLag(source)
    requires InRange(first, source.Size()) && InRange(second, source.Size())
    requires forall i :: own(i) == source.Entry(first, first, i, i)
    requires forall i :: shared(i) == source.Entry(first, second, i, i)
    requires forall i :: terms(i) == Times(KeptTerm(source.W(first, i), source.W(second, i)), source.V(i))
    ensures ValueOr0(source.VarianceOut(first)) + 2.0 * ValueOr0(source.LagOut(first, second)) == Sum(0, source.Size(), terms)
  {
    VarianceValue(source, first, own);
    LagValue(source, first, second, shared);
    KeptEntries(source, first, second, own, shared, terms);
    SumLinear(0, source.Size(), 1.0, own, 2.0, shared, terms);
  }

  /** A target without a neighbour has no lag. */
  lemma {:induction false} NoNeighbourNoLag(source: Source, first: Row)
    requires source.WellFormed() && source.AllOk() && NoLag(source) && InRange(first, source.Size())
    ensures ValueOr0(source.LagOut(first, map[])) == 0.0
  {
    var shared := i => source.Entry(first, map[], i, i);
    LagValue(source, first, map[], shared);
    EmptyNeighbour(source, first, shared);
  }

  lemma {:induction false} EmptyNeighbour(source: Source, first: Row, shared: int -> real)
    requires forall i :: shared(i) == source.Entry(first, map[], i, i)
    ensures Sum(0, source.Size(), shared) == 0.0
  {
    forall i
      ensures shared(i) == 0.0
    {
      assert source.W(map[], i) == 0.0;
    }
    SumZero(0, source.Size(), shared);
  }

  /** The two output columns of the step over the given rows. */
  ghost predicate BudgetColumns(source: Source, rows: seq<Row>, variances: seq<Num>, lags: seq<Num>) {
    && |variances| == |lags| == |rows|
    && (forall t :: 0 <= t < |rows| ==> variances[t] == source.VarianceOut(rows[t]))
    && (forall t :: 0 <= t < |rows| - 1 ==> lags[t] == source.LagOut(rows[t], rows[t + 1]))
    && (|rows| > 0 ==> lags[|rows| - 1] == Val(0.0))
  }

  ghost function Budget(variances: seq<Num>, lags: seq<Num>): real {
    Total(variances) + 2.0 * Total(lags)
  }

  ghost function Kept(source: Source, rows: seq<Row>, t: int, i: int): real {
    if 0 <= t < |rows| then KeptTerm(source.W(rows[t], i), source.W(NextRow(rows, t), i)) else 0.0
  }

  /** Share of the variance of source bin i that reaches the outputs. */
  ghost function Share(source: Source, rows: seq<Row>, i: int): real {
    Sum(0, |rows|, t => Kept(source, rows, t, i))
  }

  lemma {:induction false} ColumnsAt(source: Source, te: seq<real>, rows: seq<Row>, variances: seq<Num>, lags: seq<Num>, t: int)
    requires Clean(source, te, rows) && NoLag(source) && BudgetColumns(source, rows, variances, lags) && 0 <= t < |rows|
    ensures At(variances, t) == ValueOr0(source.VarianceOut(rows[t]))
    ensures At(lags, t) == ValueOr0(source.LagOut(rows[t], NextRow(rows, t)))
  {
    if t == |rows| - 1 {
      NoNeighbourNoLag(source, rows[t]);
    }
  }

  lemma {:induction false} BudgetAt(source: Source, te: seq<real>, rows: seq<Row>, variances: seq<Num>,
                                    lags: seq<Num>, t: int, terms: int -> real)
    requires Clean(source, te, rows) && NoLag(source) && BudgetColumns(source, rows, variances, lags)
    requires 0 <= t < |rows|
    requires forall i :: terms(i) == Times(Kept(source, rows, t, i), source.V(i))
    ensures At(variances, t) + 2.0 * At(lags, t) == Sum(0, source.Size(), terms)
  {
    ColumnsAt(source, te, rows, variances, lags, t);
    DiagonalBudget(source, rows[t], NextRow(rows, t), terms);
  }

  lemma {:induction false} DiagonalBudget(source: Source, row: Row, next: Row, terms: int -> real)
    requires source.WellFormed() && source.AllOk() && NoLag(source)
    requires InRange(row, source.Size()) && InRange(next, source.Size())
    requires forall i :: terms(i) == Times(KeptTerm(source.W(row, i), source.W(next, i)), source.V(i))
    ensures ValueOr0(source.VarianceOut(row)) + 2.0 * ValueOr0(source.LagOut(row, next)) == Sum(0, source.Size(), terms)
  {
    TargetBudget(source, row, next, i => source.Entry(row, row, i, i), i => source.Entry(row, next, i, i), terms);
  }

  /** Exchanging target and source with wrapped products. */
  lemma {:induction false} WeightedCarries(m: int, n: int, w: (int, int) -> real, v: int -> real, shares: int -> real,
                        values: int -> real, columns: int -> real)
    requires forall i :: 0 <= i < n ==> shares(i) == Sum(0, m, t => w(t, i))
    requires forall t :: 0 <= t < m ==> values(t) == Sum(0, n, i => Times(w(t, i), v(i)))
    requires forall i :: 0 <= i < n ==> columns(i) == Times(shares(i), v(i))
    ensures Sum(0, m, values) == Sum(0, n, columns)
  {
    forall t | 0 <= t < m
      ensures values(t) == Sum(0, n, i => w(t, i) * v(i))
    {
      SumCongruence(0, n, i => Times(w(t, i), v(i)), i => w(t, i) * v(i));
    }
    MatrixCarries(m, n, w, v, shares, values, columns);
  }

  lemma {:induction false} BudgetRows(source: Source, te: seq<real>, rows: seq<Row>, variances: seq<Num>, lags: seq<Num>,
                   w: (int, int) -> real, v: int -> real, values: int -> real)
    requires Clean(source, te, rows) && NoLag(source) && BudgetColumns(source, rows, variances, lags)
    requires forall t, i :: w(t, i) == Kept(source, rows, t, i)
    requires forall i :: v(i) == source.V(i)
    requires forall t :: values(t) == At(variances, t) + 2.0 * At(lags, t)
    ensures forall t :: 0 <= t < |rows| ==> values(t) == Sum(0, source.Size(), i => Times(w(t, i), v(i)))
  {
    forall t | 0 <= t < |rows|
      ensures values(t) == Sum(0, source.Size(), i => Times(w(t, i), v(i)))
    {
      var terms := i => Times(w(t, i), v(i));
      BudgetAt(source, te, rows, variances, lags, t, terms);
      SumCongruence(0, source.Size(), terms, i => Times(w(t, i), v(i)));
    }
  }

  lemma {:induction false} ShareColumn(source: Source, rows: seq<Row>, w: (int, int) -> real, i: int)
    requires forall t, i :: w(t, i) == Kept(source, rows, t, i)
    ensures Share(source, rows, i) == Sum(0, |rows|, t => w(t, i))
  {
    SumCongruence(0, |rows|, t => w(t, i), t => Kept(source, rows, t, i));
  }

  lemma {:induction false} BudgetIsSum(m: int, variances: seq<Num>, lags: seq<Num>, values: int -> real)
    requires m == |variances| == |lags|
    requires forall t :: values(t) == At(variances, t) + 2.0 * At(lags, t)
    ensures Budget(variances, lags) == Sum(0, m, values)
  {
    var f, g := t => At(variances, t), t => At(lags, t);
    SumLinear(0, m, 1.0, f, 2.0, g, values);
    SumCongruence(0, m, f, t => At(variances, t));
    SumCongruence(0, m, g, t => At(lags, t));
  }

  lemma {:induction false} BudgetByColumns(source: Source, te: seq<real>, rows: seq<Row>, variances: seq<Num>, lags: seq<Num>,
                        w: (int, int) -> real, v: int -> real, values: int -> real, shares: int -> real, columns: int -> real)
    requires Clean(source, te, rows) && NoLag(source) && BudgetColumns(source, rows, variances, lags)
    requires forall t, i :: w(t, i) == Kept(source, rows, t, i)
    requires forall i :: v(i) == source.V(i)
    requires forall t :: values(t) == At(variances, t) + 2.0 * At(lags, t)
    requires forall i :: 0 <= i < source.Size() ==> shares(i) == Share(source, rows, i)
    requires forall i :: 0 <= i < source.Size() ==> columns(i) == Times(shares(i), v(i))
    ensures Budget(variances, lags) == Sum(0, source.Size(), columns)
  {
    BudgetRows(source, te, rows, variances, lags, w, v, values);
    forall i | 0 <= i < source.Size()
      ensures shares(i) == Sum(0, |rows|, t => w(t, i))
    {
      ShareColumn(source, rows, w, i);
    }
    WeightedCarries(|rows|, source.Size(), w, v, shares, values, columns);
    BudgetIsSum(|rows|, variances, lags, values);
  }

  /** The budget of the outputs is each source variance times its share. */
  lemma {:induction false} BudgetByShares(source: Source, te: seq<real>, rows: seq<Row>, variances: seq<Num>, lags: seq<Num>,
                       shares: int -> real, columns: int -> real)
    requires Clean(source, te, rows) && NoLag(source) && BudgetColumns(source, rows, variances, lags)
    requires forall i :: 0 <= i < source.Size() ==> shares(i) == Share(source, rows, i)
    requires forall i :: 0 <= i < source.Size() ==> columns(i) == Times(shares(i), source.V(i))
    ensures Budget(variances, lags) == Sum(0, source.Size(), columns)
  {
    BudgetByColumns(source, te, rows, variances, lags, (t: int, i: int) => Kept(source, rows, t, i), i => source.V(i),
                    t => At(variances, t) + 2.0 * At(lags, t), shares, columns);
  }

  /** Source bin i feeds two target bins at least two apart, that is, more than two target bins. */
  ghost predicate FeedsMoreThanTwo(source: Source, te: seq<real>, i: int) {
    exists t, s :: 0 <= t && t + 2 <= s < |te| - 1
      && Weight(source.edges, te, t, i) > 0.0 && Weight(source.edges, te, s, i) > 0.0
  }

  lemma {:induction false} KeptAt(source: Source, te: seq<real>, rows: seq<Row>, t: int, i: int, u: int -> real)
    requires Clean(source, te, rows) && 0 <= i < source.Size() && 0 <= t < |rows|
    requires forall k :: u(k) == if 0 <= k < |rows| then source.W(rows[k], i) else 0.0
    ensures u(t) >= 0.0 && u(t) == Weight(source.edges, te, t, i)
    ensures Kept(source, rows, t, i) == KeptTerm(u(t), u(t + 1))
  {
    AllUsed(source, te, rows, t, i);
  }

  /** A bin that the targets cover keeps at most its variance, and all of it exactly when it feeds at most two targets. */
  lemma {:induction false} ShareOfBin(source: Source, te: seq<real>, rows: seq<Row>, i: int, u: int -> real)
    requires Clean(source, te, rows) && Spans(source.edges, te) && 0 <= i < source.Size()
    requires forall t :: u(t) == if 0 <= t < |rows| then source.W(rows[t], i) else 0.0
    ensures Share(source, rows, i) <= 1.0
    ensures Share(source, rows, i) == 1.0 <==> !FeedsMoreThanTwo(source, te, i)
  {
    var kept := t => Kept(source, rows, t, i);
    forall t | 0 <= t < |rows|
      ensures u(t) >= 0.0 && u(t) == Weight(source.edges, te, t, i)
      ensures kept(t) == KeptTerm(u(t), u(t + 1))
    {
      KeptAt(source, te, rows, t, i, u);
    }
    UsedColumn(source, te, rows, i, u);
    KeptFraction(u, |rows|, kept);
    SumCongruence(0, |rows|, kept, t => Kept(source, rows, t, i));
  }

  lemma {:induction false} WeightedAtMost(a: real, v: real)
    requires a <= 1.0 && v >= 0.0
    ensures Times(a, v) <= v
    ensures Times(a, v) == v <==> a == 1.0 || v == 0.0
  {
    if a < 1.0 && v > 0.0 {
      assert (1.0 - a) * v > 0.0;
    }
  }

  /** Total variance. With uncorrelated usable samples and targets that span them, the output variances plus
      twice the lag-1 covariances never exceed the source variances, and account for all of them exactly when
      no source bin of positive variance feeds more than two target bins. */
  lemma {:induction false} TotalVariance(source: Source, te: seq<real>, rows: seq<Row>, variances: seq<Num>, lags: seq<Num>)
    requires Clean(source, te, rows) && NoLag(source) && Spans(source.edges, te)
    requires BudgetColumns(source, rows, variances, lags)
    ensures Budget(variances, lags) <= Total(source.variance)
    ensures Budget(variances, lags) == Total(source.variance)
       <==> forall i :: 0 <= i < source.Size() && source.V(i) > 0.0 ==> !FeedsMoreThanTwo(source, te, i)
  {
    var n := source.Size();
    var shares := i => Share(source, rows, i);
    var columns := i => Times(Share(source, rows, i), source.V(i));
    var v := i => At(source.variance, i);
    BudgetByShares(source, te, rows, variances, lags, shares, columns);
    forall i | 0 <= i < n
      ensures columns(i) <= v(i) && v(i) == source.V(i)
      ensures columns(i) == v(i) <==> (source.V(i) > 0.0 ==> !FeedsMoreThanTwo(source, te, i))
    {
      ShareOfBin(source, te, rows, i, t => if 0 <= t < |rows| then source.W(rows[t], i) else 0.0);
      assert source.Ok(i);
      WeightedAtMost(Share(source, rows, i), source.V(i));
    }
    SumEqualIff(0, n, columns, v);
    SumCongruence(0, n, v, i => At(source.variance, i));
  }
}
