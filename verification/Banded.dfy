/** Double sums over tridiagonal matrices. */
module Banded {
  import opened Numeric

  ghost function DoubleSum(n: int, e: (int, int) -> real): real {
    Sum(0, n, i => Sum(0, n, j => e(i, j)))
  }

  /** Growing the leading block by one adds a column and a row. */
  lemma {:induction false} Border(e: (int, int) -> real, m: int, column: int -> real, last: int -> real)
    requires m >= 0
    requires forall i :: 0 <= i < m ==> column(i) == e(i, m)
    requires forall j :: 0 <= j < m ==> last(j) == e(m, j)
    ensures DoubleSum(m + 1, e) == DoubleSum(m, e) + Sum(0, m, column) + Sum(0, m, last) + e(m, m)
  {
    var small := i => Sum(0, m, j => e(i, j));
    var full := i => Sum(0, m + 1, j => e(i, j));
    SumCongruence(0, m, small, i => Sum(0, m, j => e(i, j)));
    SumCongruence(0, m + 1, full, i => Sum(0, m + 1, j => e(i, j)));
    forall i | 0 <= i < m
      ensures full(i) == small(i) + column(i)
    {}
    SumAdd(0, m, small, column, full);
    SumCongruence(0, m, last, j => e(m, j));
  }

  /** A tridiagonal double sum is a single scan over the diagonal and its two neighbours. */
  lemma {:induction false} DoubleSumByScan(n: int, e: (int, int) -> real, scan: int -> real)
    requires n >= 0
    requires forall i, j :: 0 <= i < n && 0 <= j < n && (j > i + 1 || i > j + 1) ==> e(i, j) == 0.0
    requires forall i :: 0 <= i < n ==> scan(i) == e(i, i) + (if i > 0 then e(i - 1, i) + e(i, i - 1) else 0.0)
    ensures DoubleSum(n, e) == Sum(0, n, scan)
    decreases n
  {
    if n > 0 {
      var m := n - 1;
      DoubleSumByScan(m, e, scan);
      var column := i => e(i, m);
      var last := j => e(m, j);
      Border(e, m, column, last);
      if m > 0 {
        SumSingle(0, m, m - 1, column);
        SumSingle(0, m, m - 1, last);
      }
    }
  }

  lemma {:induction false} DoubleSumCongruence(n: int, e: (int, int) -> real, rows: int -> real)
    requires forall i :: 0 <= i < n ==> rows(i) == Sum(0, n, j => e(i, j))
    ensures DoubleSum(n, e) == Sum(0, n, rows)
  {
    SumCongruence(0, n, rows, i => Sum(0, n, j => e(i, j)));
  }

  /** One row of a tridiagonal matrix has at most three entries. */
  lemma {:induction false} RowByNeighbours(n: int, i: int, row: int -> real)
    requires 0 <= i < n
    requires forall j :: 0 <= j < n && (j > i + 1 || i > j + 1) ==> row(j) == 0.0
    ensures Sum(0, n, row) == row(i) + (if i > 0 then row(i - 1) else 0.0) + (if i + 1 < n then row(i + 1) else 0.0)
  {
    var lo, hi := if i > 0 then i - 1 else 0, if i + 1 < n then i + 2 else n;
    SumSplit(0, lo, n, row);
    SumSplit(lo, hi, n, row);
    SumZero(0, lo, row);
    SumZero(hi, n, row);
    SumSplit(lo, i, hi, row);
    SumSplit(i, i + 1, hi, row);
    assert Sum(i, i, row) == 0.0;
    assert Sum(i, i + 1, row) == row(i);
    if i > 0 {
      assert Sum(i - 1, i - 1, row) == 0.0;
    }
    if i + 1 < n {
      assert Sum(i + 1, i + 1, row) == 0.0;
    }
  }

  lemma {:induction false} DoubleSumSame(n: int, e: (int, int) -> real, e': (int, int) -> real)
    requires forall i, j :: 0 <= i < n && 0 <= j < n ==> e(i, j) == e'(i, j)
    ensures DoubleSum(n, e) == DoubleSum(n, e')
  {
    var rows := i => Sum(0, n, j => e(i, j));
    forall i | 0 <= i < n
      ensures rows(i) == Sum(0, n, j => e'(i, j))
    {
      SumCongruence(0, n, j => e(i, j), j => e'(i, j));
    }
    DoubleSumCongruence(n, e, rows);
    DoubleSumCongruence(n, e', rows);
  }
}
