/** What the resampling step conserves: flux, density, variance with its lag-1 column, and quality flags. */
module Conservation {
  import opened Numeric
  import opened Bins
  import opened Banded
  import opened Resample

  function At(column: seq<Num>, i: int): real { if 0 <= i < |column| then ValueOr0(column[i]) else 0.0 }

  /** Sum of the finite entries of a column. */
  ghost function Total(column: seq<Num>): real { Sum(0, |column|, i => At(column, i)) }

  ghost predicate Spans(se: seq<real>, te: seq<real>)
    requires |se| >= 1 && |te| >= 1
  {
    te[0] <= se[0] && se[|se| - 1] <= te[|te| - 1]
  }

  /** Target bins `rows` of a source whose samples are all usable. */
  ghost predicate Clean(source: Source, te: seq<real>, rows: seq<Row>) {
    source.WellFormed() && source.AllOk() && Grids(source.edges, te) && RowsOf(rows, source.edges, te)
  }

  /** When every sample is usable, the used weight is the overlap weight. */
  lemma {:induction false} AllUsed(source: Source, te: seq<real>, rows: seq<Row>, t: int, i: int)
    requires Clean(source, te, rows) && 0 <= t < |rows|
    ensures source.W(rows[t], i) == Weight(source.edges, te, t, i)
    ensures source.Used(rows[t], i) <==> source.W(rows[t], i) > 0.0
    ensures source.W(rows[t], i) >= 0.0
  {
    assert RowOf(rows[t], source.edges, te, t);
    if 0 <= i < source.Size() {
      WeightPositive(source.edges, te, t, i);
    }
  }

  /** The used weights of a source bin over all targets sum to its covered fraction. */
  lemma {:induction false} UsedColumn(source: Source, te: seq<real>, rows: seq<Row>, i: int, column: int -> real)
    requires Clean(source, te, rows) && 0 <= i < source.Size()
    requires forall t :: 0 <= t < |rows| ==> column(t) == source.W(rows[t], i)
    ensures Sum(0, |rows|, column) == Covered(source.edges, te, |rows|, i)
    ensures Spans(source.edges, te) ==> Sum(0, |rows|, column) == 1.0
  {
    forall t | 0 <= t < |rows|
      ensures column(t) == Weight(source.edges, te, t, i)
    {
      AllUsed(source, te, rows, t, i);
    }
    ColumnSum(source.edges, te, |rows|, i, column);
    ColumnAtMostOne(source.edges, te, i, column);
  }

  // --------------------------------------------------------------------- flux

  /** Exchanging target and source: a weighted matrix carries the column sums. */
  lemma {:induction false} MatrixCarries(m: int, n: int, w: (int, int) -> real, y: int -> real, carried: int -> real,
                      rows: int -> real, columns: int -> real)
    requires forall i :: 0 <= i < n ==> carried(i) == Sum(0, m, t => w(t, i))
    requires forall t :: 0 <= t < m ==> rows(t) == Sum(0, n, i => w(t, i) * y(i))
    requires forall i :: 0 <= i < n ==> columns(i) == carried(i) * y(i)
    ensures Sum(0, m, rows) == Sum(0, n, columns)
  {
    var f := (t: int, i: int) => w(t, i) * y(i);
    forall t | 0 <= t < m
      ensures rows(t) == Sum(0, n, i => f(t, i))
    {
      SumCongruence(0, n, i => w(t, i) * y(i), i => f(t, i));
    }
    forall i | 0 <= i < n
      ensures columns(i) == Sum(0, m, t => f(t, i))
    {
      SumScale(0, m, y(i), t => w(t, i), t => f(t, i));
    }
    SumExchange(m, n, f, rows, columns);
  }

  /** The flux of one target as a row of the matrix product. */
  lemma {:induction false} FluxValue(source: Source, row: Row, w: int -> real, y: int -> real)
    requires forall i :: w(i) == source.W(row, i) && y(i) == source.Y(i)
    ensures ValueOr0(source.FluxOut(row)) == Sum(0, source.Size(), i => w(i) * y(i))
  {
    var terms := i => source.FluxTerm(row, i);
    forall i
      ensures terms(i) == w(i) * y(i)
    {
      assert source.FluxTerm(row, i) == source.W(row, i) * source.Y(i);
    }
    SumCongruence(0, source.Size(), terms, i => w(i) * y(i));
    SumCongruence(0, source.Size(), terms, i => source.FluxTerm(row, i));
    if source.Empty(row) {
      SumZero(0, source.Size(), terms);
    }
  }

  lemma {:induction false} FluxRow(source: Source, rows: seq<Row>, fluxes: seq<Num>, w: (int, int) -> real,
                                   y: int -> real, t: int)
    requires 0 <= t < |rows| == |fluxes| && fluxes[t] == source.FluxOut(rows[t])
    requires forall t, i :: 0 <= t < |rows| ==> w(t, i) == source.W(rows[t], i)
    requires forall i :: y(i) == source.Y(i)
    ensures At(fluxes, t) == Sum(0, source.Size(), i => w(t, i) * y(i))
  {
    var row := i => w(t, i);
    FluxValue(source, rows[t], row, y);
    SumCongruence(0, source.Size(), i => row(i) * y(i), i => w(t, i) * y(i));
  }

  lemma {:induction false} CarriedColumn(source: Source, te: seq<real>, rows: seq<Row>, w: (int, int) -> real, i: int)
    requires Clean(source, te, rows) && 0 <= i < source.Size()
    requires forall t, i :: 0 <= t < |rows| ==> w(t, i) == source.W(rows[t], i)
    ensures Sum(0, |rows|, t => w(t, i)) == Covered(source.edges, te, |rows|, i)
    ensures Spans(source.edges, te) ==> Sum(0, |rows|, t => w(t, i)) == 1.0
  {
    UsedColumn(source, te, rows, i, t => w(t, i));
  }

  lemma {:induction false} CoveredFluxBy(source: Source, te: seq<real>, rows: seq<Row>, fluxes: seq<Num>,
                      w: (int, int) -> real, y: int -> real, carried: int -> real, columns: int -> real)
    requires Clean(source, te, rows) && |fluxes| == |rows|
    requires forall t :: 0 <= t < |rows| ==> fluxes[t] == source.FluxOut(rows[t])
    requires forall t, i :: 0 <= t < |rows| ==> w(t, i) == source.W(rows[t], i)
    requires forall i :: y(i) == source.Y(i)
    requires forall i :: 0 <= i < source.Size() ==> carried(i) == Covered(source.edges, te, |rows|, i)
    requires forall i :: 0 <= i < source.Size() ==> columns(i) == carried(i) * y(i)
    ensures Total(fluxes) == Sum(0, source.Size(), columns)
  {
    var values := t => At(fluxes, t);
    forall t | 0 <= t < |rows|
      ensures values(t) == Sum(0, source.Size(), i => w(t, i) * y(i))
    {
      FluxRow(source, rows, fluxes, w, y, t);
    }
    forall i | 0 <= i < source.Size()
      ensures carried(i) == Sum(0, |rows|, t => w(t, i))
    {
      CarriedColumn(source, te, rows, w, i);
    }
    MatrixCarries(|rows|, source.Size(), w, y, carried, values, columns);
    SumCongruence(0, |rows|, values, t => At(fluxes, t));
  }

  /** For any target range: the resampled flux is each sample's flux times the covered fraction of its bin. */
  lemma {:induction false} CoveredFlux(source: Source, te: seq<real>, rows: seq<Row>, fluxes: seq<Num>, carried: int -> real)
    requires Clean(source, te, rows) && |fluxes| == |rows|
    requires forall t :: 0 <= t < |rows| ==> fluxes[t] == source.FluxOut(rows[t])
    requires forall i :: 0 <= i < source.Size() ==> carried(i) == Covered(source.edges, te, |rows|, i)
    ensures Total(fluxes) == Sum(0, source.Size(), i => carried(i) * source.Y(i))
  {
    var w := (t: int, i: int) => if 0 <= t < |rows| then source.W(rows[t], i) else 0.0;
    var y := i => source.Y(i);
    var columns := i => carried(i) * source.Y(i);
    CoveredFluxBy(source, te, rows, fluxes, w, y, carried, columns);
    SumCongruence(0, source.Size(), columns, i => carried(i) * source.Y(i));
  }

  /** Flux conservation: targets that span the source carry exactly its flux. */
  lemma {:induction false} FluxConserved(source: Source, te: seq<real>, rows: seq<Row>, fluxes: seq<Num>)
    requires Clean(source, te, rows) && |fluxes| == |rows| && Spans(source.edges, te)
    requires forall t :: 0 <= t < |rows| ==> fluxes[t] == source.FluxOut(rows[t])
    ensures Total(fluxes) == Total(source.flux)
  {
    var n := source.Size();
    forall i | 0 <= i < n
      ensures Covered(source.edges, te, |rows|, i) == 1.0
    {
      UsedColumn(source, te, rows, i, t => if 0 <= t < |rows| then source.W(rows[t], i) else 0.0);
    }
    CoveredFlux(source, te, rows, fluxes, i => 1.0);
    SumCongruence(0, n, i => 1.0 * source.Y(i), i => At(source.flux, i));
    SumCongruence(0, n, i => (i => 1.0)(i) * source.Y(i), i => 1.0 * source.Y(i));
  }

  ghost function OverlapAt(se: seq<real>, te: seq<real>, t: int, i: int): real
    requires 0 <= t < |te| - 1 && 0 <= i < |se| - 1
  {
    Overlap(te[t], te[t + 1], se[i], se[i + 1])
  }

  /** Sample i carries the flux of a constant density over its bin. */
  ghost predicate HasDensity(source: Source, density: real, i: int)
    requires source.WellFormed() && 0 <= i < source.Size()
  {
    source.flux[i] == Val(density * (source.edges[i + 1] - source.edges[i]))
  }

  ghost predicate Uniform(source: Source, density: real)
    requires source.WellFormed()
  {
    forall i :: 0 <= i < source.Size() ==> HasDensity(source, density, i)
  }

  lemma {:induction false} DensityTerm(source: Source, te: seq<real>, rows: seq<Row>, density: real, t: int, i: int)
    requires Clean(source, te, rows) && 0 <= t < |rows| && 0 <= i < source.Size()
    requires HasDensity(source, density, i)
    ensures source.FluxTerm(rows[t], i) == density * OverlapAt(source.edges, te, t, i)
  {
    AllUsed(source, te, rows, t, i);
    var width := source.edges[i + 1] - source.edges[i];
    var overlap := Overlap(te[t], te[t + 1], source.edges[i], source.edges[i + 1]);
    assert source.W(rows[t], i) == overlap / width;
    assert source.Y(i) == density * width;
  }

  /** A constant flux density is reproduced on every target bin inside the source range. */
  lemma {:induction false} ConstantDensity(source: Source, te: seq<real>, rows: seq<Row>, density: real, t: int)
    requires Clean(source, te, rows) && 0 <= t < |rows|
    requires Uniform(source, density)
    requires source.edges[0] <= te[t] && te[t + 1] <= source.edges[source.Size()]
    ensures source.FluxOut(rows[t]) == Val(density * (te[t + 1] - te[t]))
  {
    var lengths, terms := OverlapTerms(source, te, rows[t], t);
    DensityFlux(source, te, rows, density, t, lengths, terms, te[t + 1] - te[t]);
  }

  lemma {:induction false} OverlapTerms(source: Source, te: seq<real>, row: Row,
                                        t: int) returns (lengths: int -> real, terms: int -> real)
    requires source.WellFormed() && 0 <= t < |te| - 1
    ensures forall i :: 0 <= i < source.Size() ==> lengths(i) == OverlapAt(source.edges, te, t, i)
    ensures forall i :: 0 <= i < source.Size() ==> terms(i) == source.FluxTerm(row, i)
  {
    lengths := i => if 0 <= i < source.Size() then OverlapAt(source.edges, te, t, i) else 0.0;
    terms := i => source.FluxTerm(row, i);
  }

  lemma {:induction false} DensityFlux(source: Source, te: seq<real>, rows: seq<Row>, density: real, t: int,
                                       lengths: int -> real,
                    terms: int -> real, width: real)
    requires Clean(source, te, rows) && 0 <= t < |rows| && width == te[t + 1] - te[t]
    requires Uniform(source, density)
    requires forall i :: 0 <= i < source.Size() ==> lengths(i) == OverlapAt(source.edges, te, t, i)
    requires forall i :: 0 <= i < source.Size() ==> terms(i) == source.FluxTerm(rows[t], i)
    requires source.edges[0] <= te[t] && te[t + 1] <= source.edges[source.Size()]
    ensures source.FluxOut(rows[t]) == Val(Times(density, width))
  {
    CoveredLength(source, te, rows, t, lengths);
    CoveredTargetIsUsed(source, te, rows, t, lengths);
    DensityTerms(source, te, rows, density, t, lengths, terms);
    ScaledLength(source.Size(), density, lengths, terms, width);
    FluxFromTerms(source, rows[t], terms);
  }

  lemma {:induction false} ScaledLength(n: int, density: real, lengths: int -> real, terms: int -> real, width: real)
    requires forall i :: 0 <= i < n ==> terms(i) == density * lengths(i)
    requires Sum(0, n, lengths) == width
    ensures Sum(0, n, terms) == Times(density, width)
  {
    SumScale(0, n, density, lengths, terms);
  }

  lemma {:induction false} FluxFromTerms(source: Source, row: Row, terms: int -> real)
    requires !source.Empty(row)
    requires forall i :: 0 <= i < source.Size() ==> terms(i) == source.FluxTerm(row, i)
    ensures source.FluxOut(row) == Val(Sum(0, source.Size(), terms))
  {
    SumCongruence(0, source.Size(), terms, i => source.FluxTerm(row, i));
  }

  lemma {:induction false} CoveredLength(source: Source, te: seq<real>, rows: seq<Row>, t: int, lengths: int -> real)
    requires Clean(source, te, rows) && 0 <= t < |rows|
    requires forall i :: 0 <= i < source.Size() ==> lengths(i) == OverlapAt(source.edges, te, t, i)
    requires source.edges[0] <= te[t] && te[t + 1] <= source.edges[source.Size()]
    ensures Sum(0, source.Size(), lengths) == te[t + 1] - te[t] > 0.0
  {
    RowLength(source.edges, te[t], te[t + 1], source.Size(), lengths);
  }

  lemma {:induction false} DensityTerms(source: Source, te: seq<real>, rows: seq<Row>, density: real, t: int,
                                        lengths: int -> real, terms: int -> real)
    requires Clean(source, te, rows) && 0 <= t < |rows|
    requires Uniform(source, density)
    requires forall i :: 0 <= i < source.Size() ==> lengths(i) == OverlapAt(source.edges, te, t, i)
    requires forall i :: 0 <= i < source.Size() ==> terms(i) == source.FluxTerm(rows[t], i)
    ensures forall i :: 0 <= i < source.Size() ==> terms(i) == density * lengths(i)
  {
    forall i | 0 <= i < source.Size()
      ensures terms(i) == density * lengths(i)
    {
      DensityTerm(source, te, rows, density, t, i);
    }
  }

  /** A target bin inside the source range uses at least one sample. */
  lemma {:induction false} CoveredTargetIsUsed(source: Source, te: seq<real>, rows: seq<Row>, t: int, lengths: int -> real)
    requires Clean(source, te, rows) && 0 <= t < |rows|
    requires forall i :: 0 <= i < source.Size() ==> lengths(i) == OverlapAt(source.edges, te, t, i)
    requires Sum(0, source.Size(), lengths) > 0.0
    ensures !source.Empty(rows[t])
  {
    if source.Empty(rows[t]) {
      forall i | 0 <= i < source.Size()
        ensures lengths(i) == 0.0
      {
        AllUsed(source, te, rows, t, i);
        QuotientSign(lengths(i), source.edges[i + 1] - source.edges[i]);
      }
      SumZero(0, source.Size(), lengths);
    }
  }

  // ------------------------------------------------------- variance and its lag

  /** The variance column is w' C w, cut off at zero; the lag-1 column is w_t' C w_(t+1) when all samples are usable. */
  lemma {:induction false} LagIsBilinear(source: Source, first: Row, second: Row)
    requires source.WellFormed() && source.AllOk()
    requires InRange(first, source.Size()) && InRange(second, source.Size())
    ensures source.LagOut(first, second) == Val(source.Covariance(first, second))
  {
    var n := source.Size();
    var e := (i: int, j: int) => source.Entry(first, second, i, j);
    var terms := i => source.RawTerm(first, second, i);
    forall i | 0 <= i < n
      ensures terms(i) == Sum(0, n, j => e(i, j))
    {
      RawRow(source, first, second, i, e);
    }
    DoubleSumCongruence(n, e, terms);
    DoubleSumSame(n, e, (i, j) => source.Entry(first, second, i, j));
    SumCongruence(0, n, terms, i => source.RawTerm(first, second, i));
    AllFinite(source, first, second);
  }

  lemma {:induction false} AllFinite(source: Source, first: Row, second: Row)
    requires source.WellFormed() && source.AllOk()
    ensures !source.SharesNonFinite(first, second)
  {
    forall i | 0 <= i < |source.variance|
      ensures source.variance[i].Val?
    {
      assert source.Ok(i);
    }
  }

  lemma {:induction false} RawIsUsed(source: Source, first: Row, second: Row, i: int, j: int)
    requires source.WellFormed() && source.AllOk()
    requires InRange(first, source.Size()) && InRange(second, source.Size())
    requires 0 <= i < source.Size() && 0 <= j < source.Size()
    ensures source.RawEntry(first, second, i, j) == source.Entry(first, second, i, j)
  {
    assert source.Ok(i) && source.Ok(j);
    var a, b, c := source.RawW(first, i), source.RawW(second, j), source.RawC(i, j);
    var a', b', c' := source.W(first, i), source.W(second, j), source.C(i, j);
    assert source.RawEntry(first, second, i, j) == a * b * c;
    assert source.Entry(first, second, i, j) == a' * b' * c';
  }

  lemma {:induction false} RawRow(source: Source, first: Row, second: Row, i: int, e: (int, int) -> real)
    requires source.WellFormed() && source.AllOk() && 0 <= i < source.Size()
    requires InRange(first, source.Size()) && InRange(second, source.Size())
    requires forall i, j :: e(i, j) == source.Entry(first, second, i, j)
    ensures source.RawTerm(first, second, i) == Sum(0, source.Size(), j => e(i, j))
  {
    var n := source.Size();
    var row := j => e(i, j);
    forall j | 0 <= j < n
      ensures j > i + 1 || i > j + 1 ==> row(j) == 0.0
      ensures row(j) == source.RawEntry(first, second, i, j)
    {
      RawIsUsed(source, first, second, i, j);
    }
    RowByNeighbours(n, i, row);
    SumCongruence(0, n, row, j => e(i, j));
  }
}
