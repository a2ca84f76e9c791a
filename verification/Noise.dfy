/** Error propagation through the resampling step: the reported variances and lags are those of the reported fluxes, for
    samples whose noise is any mixture of independent sources. */
module Noise {
  import opened Numeric
  import opened Bins
  import opened Banded
  import opened Resample
  import opened Conservation

  // -------------------------------------------------------------- mixtures of unit noises

  function Noise(a: (int, int) -> real, k: int): int -> real { i => a(i, k) }

  ghost function Pair(a: (int, int) -> real, i: int, j: int): int -> real { k => a(i, k) * a(j, k) }

  /** A sample that takes part: finite flux, and a finite variance that is not negative. */
  predicate Sound(source: Source, i: int) {
    && 0 <= i < |source.flux| && i < |source.variance|
    && source.flux[i].Val? && source.variance[i].Val? && source.variance[i].v >= 0.0
  }

  /** Sample i is a(i, 0), ..., a(i, m - 1) times m independent noises of unit variance: variances and lags are those of the
      mixture, and samples further apart are uncorrelated. */
  ghost predicate Mixes(source: Source, a: (int, int) -> real, m: int) {
    && (forall i :: Sound(source, i) ==> source.variance[i].v == Sum(0, m, Pair(a, i, i)))
    && (forall i :: Sound(source, i) && Sound(source, i + 1) && i < |source.lag| ==> source.lag[i] == Sum(0, m, Pair(a, i, i + 1)))
    && (forall i, j :: 0 <= i && i + 1 < j < source.Size() ==> Sum(0, m, Pair(a, i, j)) == 0.0)
  }

  ghost function Products(u: int -> real, v: int -> real): (int, int) -> real { (i, j) => Times(u(i), v(j)) }

  lemma {:induction false} Commuted(a: real, b: real)
    ensures Times(a, b) == Times(b, a)
  {}

  lemma {:induction false} ProductOfSums(n: int, u: int -> real, v: int -> real)
    ensures DoubleSum(n, Products(u, v)) == Times(Sum(0, n, u), Sum(0, n, v))
  {
    var total, e := Sum(0, n, v), Products(u, v);
    assert forall i, j :: e(i, j) == Times(u(i), v(j));
    var rows := i => Times(total, u(i));
    forall i | 0 <= i < n
      ensures rows(i) == Sum(0, n, j => e(i, j))
    {
      SumTimes(n, u(i), v, j => e(i, j));
      Commuted(u(i), total);
    }
    DoubleSumCongruence(n, e, rows);
    SumTimes(n, total, u, rows);
    Commuted(total, Sum(0, n, u));
  }

  lemma {:induction false} DoubleSumAdd(n: int, e: (int, int) -> real, f: (int, int) -> real, g: (int, int) -> real)
    requires forall i, j :: 0 <= i < n && 0 <= j < n ==> g(i, j) == e(i, j) + f(i, j)
    ensures DoubleSum(n, g) == DoubleSum(n, e) + DoubleSum(n, f)
  {
    var p, q := i => Sum(0, n, j => e(i, j)), i => Sum(0, n, j => f(i, j));
    var r := i => Sum(0, n, j => g(i, j));
    forall i | 0 <= i < n
      ensures r(i) == p(i) + q(i)
    {
      SumAdd(0, n, j => e(i, j), j => f(i, j), j => g(i, j));
    }
    DoubleSumCongruence(n, e, p);
    DoubleSumCongruence(n, f, q);
    DoubleSumCongruence(n, g, r);
    SumAdd(0, n, p, q, r);
  }

  /** A weighted mixture. */
  ghost function Mixture(u: int -> real, f: int -> real): int -> real { i => u(i) * f(i) }

  /** What the first m noises give for the covariance of two weighted sums of samples. */
  ghost function Entries(u: int -> real, v: int -> real, a: (int, int) -> real, m: int): (int, int) -> real {
    (i, j) => Times(Times(u(i), v(j)), Sum(0, m, Pair(a, i, j)))
  }

  ghost function Amplitude(n: int, u: int -> real, a: (int, int) -> real, k: int): real { Sum(0, n, Mixture(u, Noise(a, k))) }

  lemma {:induction false} StepProduct(x: real, y: real, s: real, p: real, q: real)
    ensures Times(Times(x, y), s + p * q) == Times(Times(x, y), s) + Times(x * p, y * q)
  {}

  lemma {:induction false} EntryStep(u: int -> real, v: int -> real, a: (int, int) -> real, m: int, i: int, j: int)
    requires m > 0
    ensures Entries(u, v, a, m)(i, j)
         == Entries(u, v, a, m - 1)(i, j) + Products(Mixture(u, Noise(a, m - 1)), Mixture(v, Noise(a, m - 1)))(i, j)
  {
    var s, p, q := Sum(0, m - 1, Pair(a, i, j)), a(i, m - 1), a(j, m - 1);
    assert Pair(a, i, j)(m - 1) == p * q;
    assert Sum(0, m, Pair(a, i, j)) == s + p * q;
    assert Mixture(u, Noise(a, m - 1))(i) == u(i) * p && Mixture(v, Noise(a, m - 1))(j) == v(j) * q;
    StepProduct(u(i), v(j), s, p, q);
  }

  lemma {:induction false} MixedCovariance(n: int, u: int -> real, v: int -> real, a: (int, int) -> real, m: int,
                                           terms: int -> real)
    requires m >= 0
    requires forall k :: 0 <= k < m ==> terms(k) == Times(Amplitude(n, u, a, k), Amplitude(n, v, a, k))
    ensures DoubleSum(n, Entries(u, v, a, m)) == Sum(0, m, terms)
    decreases m
  {
    if m == 0 {
      NothingMixed(n, u, v, a);
    } else {
      MixedCovariance(n, u, v, a, m - 1, terms);
      var p, q := Mixture(u, Noise(a, m - 1)), Mixture(v, Noise(a, m - 1));
      forall i, j | 0 <= i < n && 0 <= j < n
        ensures Entries(u, v, a, m)(i, j) == Entries(u, v, a, m - 1)(i, j) + Products(p, q)(i, j)
      {
        EntryStep(u, v, a, m, i, j);
      }
      DoubleSumAdd(n, Entries(u, v, a, m - 1), Products(p, q), Entries(u, v, a, m));
      ProductOfSums(n, p, q);
    }
  }

  lemma {:induction false} NothingMixed(n: int, u: int -> real, v: int -> real, a: (int, int) -> real)
    ensures DoubleSum(n, Entries(u, v, a, 0)) == 0.0
  {
    var rows, e := i => 0.0, Entries(u, v, a, 0);
    assert forall i, j :: e(i, j) == Times(Times(u(i), v(j)), 0.0);
    forall i | 0 <= i < n
      ensures rows(i) == Sum(0, n, j => e(i, j))
    {
      SumZero(0, n, j => e(i, j));
    }
    DoubleSumCongruence(n, e, rows);
    SumZero(0, n, rows);
  }

  // ------------------------------------------------------------------- one target bin

  ghost function Weights(source: Source, row: Row): int -> real { i => source.W(row, i) }

  lemma {:induction false} PairSymmetric(a: (int, int) -> real, m: int, i: int, j: int)
    ensures Sum(0, m, Pair(a, i, j)) == Sum(0, m, Pair(a, j, i))
  {
    SumCongruence(0, m, Pair(a, i, j), Pair(a, j, i));
  }

  lemma {:induction false} MixedEntry(source: Source, first: Row, second: Row, a: (int, int) -> real, m: int, i: int, j: int)
    requires source.WellFormed() && Mixes(source, a, m) && 0 <= i < source.Size() && 0 <= j < source.Size()
    ensures source.Entry(first, second, i, j) == Entries(Weights(source, first), Weights(source, second), a, m)(i, j)
  {
    var u, v := source.W(first, i), source.W(second, j);
    assert Entries(Weights(source, first), Weights(source, second), a, m)(i, j) == Times(Times(u, v), Sum(0, m, Pair(a, i, j)));
    assert source.Ok(i) <==> Sound(source, i);
    assert source.Ok(j) <==> Sound(source, j);
    if Sound(source, i) && Sound(source, j) {
      PairSymmetric(a, m, i, j);
      assert source.C(i, j) == Sum(0, m, Pair(a, i, j));
    } else {
      assert u == 0.0 || v == 0.0;
    }
  }

  ghost function Shake(x: Num, d: real): Num { if x.Val? then Val(x.v + d) else Missing }

  /** The samples with their fluxes shifted. */
  ghost function Shaken(source: Source, shift: int -> real): Source {
    source.(flux := seq(|source.flux|, i requires 0 <= i < |source.flux| => Shake(source.flux[i], shift(i))))
  }

  /** By how much the reported flux moves when the samples are shifted. */
  ghost function Response(source: Source, row: Row, shift: int -> real): real {
    ValueOr0(Shaken(source, shift).FluxOut(row)) - ValueOr0(source.FluxOut(row))
  }

  lemma {:induction false} ShakenTerm(source: Source, row: Row, shift: int -> real, i: int)
    requires source.WellFormed() && 0 <= i < source.Size()
    ensures Shaken(source, shift).FluxTerm(row, i) == source.FluxTerm(row, i) + Mixture(Weights(source, row), shift)(i)
  {
    var shaken := Shaken(source, shift);
    assert shaken.flux[i] == Shake(source.flux[i], shift(i));
    if source.Ok(i) {
      var w := source.W(row, i);
      assert shaken.W(row, i) == w;
      assert w * (source.flux[i].v + shift(i)) == w * source.flux[i].v + w * shift(i);
    }
  }

  lemma {:induction false} ShakenIsEmpty(source: Source, row: Row, shift: int -> real)
    ensures Shaken(source, shift).Empty(row) == source.Empty(row)
  {
    assert forall i :: Shaken(source, shift).Used(row, i) == source.Used(row, i);
  }

  lemma {:induction false} ResponseIs(source: Source, row: Row, shift: int -> real)
    requires source.WellFormed()
    ensures Response(source, row, shift) == Sum(0, source.Size(), Mixture(Weights(source, row), shift))
  {
    var shaken, n := Shaken(source, shift), source.Size();
    ShakenIsEmpty(source, row, shift);
    if source.Empty(row) {
      SumZero(0, n, Mixture(Weights(source, row), shift));
    } else {
      forall i | 0 <= i < n
        ensures shaken.FluxTerm(row, i) == source.FluxTerm(row, i) + Mixture(Weights(source, row), shift)(i)
      {
        ShakenTerm(source, row, shift, i);
      }
      SumAdd(0, n, i => source.FluxTerm(row, i), Mixture(Weights(source, row), shift), i => shaken.FluxTerm(row, i));
    }
  }

  lemma {:induction false} CovarianceIsPropagated(source: Source, first: Row, second: Row, a: (int, int) -> real, m: nat,
                                                  terms: int -> real)
    requires source.WellFormed() && Mixes(source, a, m)
    requires forall k :: terms(k) == Times(Response(source, first, Noise(a, k)), Response(source, second, Noise(a, k)))
    ensures source.Covariance(first, second) == Sum(0, m, terms)
  {
    var n, u, v := source.Size(), Weights(source, first), Weights(source, second);
    forall k | 0 <= k < m
      ensures terms(k) == Times(Amplitude(n, u, a, k), Amplitude(n, v, a, k))
    {
      ResponseIs(source, first, Noise(a, k));
      ResponseIs(source, second, Noise(a, k));
    }
    MixedCovariance(n, u, v, a, m, terms);
    CovarianceIsMixed(source, first, second, a, m);
  }

  lemma {:induction false} CovarianceIsMixed(source: Source, first: Row, second: Row, a: (int, int) -> real, m: nat)
    requires source.WellFormed() && Mixes(source, a, m)
    ensures source.Covariance(first, second)
         == DoubleSum(source.Size(), Entries(Weights(source, first), Weights(source, second), a, m))
  {
    var n, e := source.Size(), Entries(Weights(source, first), Weights(source, second), a, m);
    forall i, j | 0 <= i < n && 0 <= j < n
      ensures source.Entry(first, second, i, j) == e(i, j)
    {
      MixedEntry(source, first, second, a, m, i, j);
    }
    DoubleSumSame(n, (i, j) => source.Entry(first, second, i, j), e);
  }

  /** The reported variance is the sum over the noises of the squared response of the reported flux to each of them, whatever
      samples are unusable. */
  lemma {:induction false} VarianceIsPropagated(source: Source, row: Row, a: (int, int) -> real, m: nat, terms: int -> real)
    requires source.WellFormed() && Mixes(source, a, m) && !source.Empty(row)
    requires forall k :: terms(k) == Times(Response(source, row, Noise(a, k)), Response(source, row, Noise(a, k)))
    ensures source.VarianceOut(row) == Val(Sum(0, m, terms))
  {
    CovarianceIsPropagated(source, row, row, a, m, terms);
    forall k | 0 <= k < m
      ensures terms(k) >= 0.0
    {
      SquareSign(Response(source, row, Noise(a, k)));
    }
    SumNonNegative(0, m, terms);
  }

  lemma {:induction false} SquareSign(x: real)
    ensures Times(x, x) >= 0.0
  {}

  /** With usable samples the reported lag of two targets is the sum of the products of their responses. */
  lemma {:induction false} LagIsPropagated(source: Source, first: Row, second: Row, a: (int, int) -> real, m: nat,
                                           terms: int -> real)
    requires source.WellFormed() && source.AllOk() && Mixes(source, a, m)
    requires InRange(first, source.Size()) && InRange(second, source.Size())
    requires forall k :: terms(k) == Times(Response(source, first, Noise(a, k)), Response(source, second, Noise(a, k)))
    ensures source.LagOut(first, second) == Val(Sum(0, m, terms))
  {
    LagIsBilinear(source, first, second);
    CovarianceIsPropagated(source, first, second, a, m, terms);
  }
}
