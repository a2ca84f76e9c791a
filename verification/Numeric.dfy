/** Values shared by the pipeline modules: a float that may be non-finite, and finite sums of reals. */
module Numeric {

  /** A float array element: a finite real, or a value `isfinite` rejects (NaN and infinities). */
  datatype Num = Missing | Val(v: real)

  /** A quality word as the set of its bit positions; bitwise-or is union. */
  type Quality = set<nat>

  const SATURATED: nat := 0
  const COSMIC_RAY: nat := 1
  const BAD_PIXEL: nat := 2
  const EXTRACTION_FAILED: nat := 3
  const RESAMPLE_EDGE: nat := 4
  const NULL1_EXCESS: nat := 7
  const NULL2_EXCESS: nat := 8
  const ORDER_GAP: nat := 11

  function ValueOr0(n: Num): real { if n.Val? then n.v else 0.0 }

  datatype Option<+T> = None | Some(value: T)

  datatype Result<+T> = Success(value: T) | Failure(error: string)

  function Max(a: real, b: real): real { if a < b then b else a }

  function Min(a: real, b: real): real { if a < b then a else b }

  function Abs(a: real): real { if a < 0.0 then -a else a }

  function Pow(x: real, n: nat): real { if n == 0 then 1.0 else Pow(x, n - 1) * x }

  ghost function Times(a: real, b: real): real { a * b }

  ghost function Quad(x: real, v: real): real { x * x * v }

  ghost predicate Distinct<T>(s: seq<T>) { forall i, j :: 0 <= i < j < |s| ==> s[i] != s[j] }

  /** All rows have this many entries. */
  ghost predicate Rectangular<T>(rows: seq<seq<T>>, size: nat) { forall i :: 0 <= i < |rows| ==> |rows[i]| == size }

  /** f(lo) + ... + f(hi - 1). */
  ghost function Sum(lo: int, hi: int, f: int -> real): (s: real)
    decreases hi - lo
  {
    if hi <= lo then 0.0 else Sum(lo, hi - 1, f) + f(hi - 1)
  }

  lemma {:induction false} SumCongruence(lo: int, hi: int, f: int -> real, g: int -> real)
    requires forall i :: lo <= i < hi ==> f(i) == g(i)
    ensures Sum(lo, hi, f) == Sum(lo, hi, g)
    decreases hi - lo
  {
    if lo < hi {
      SumCongruence(lo, hi - 1, f, g);
    }
  }

  /** The sum of a linear combination c * f + d * g. */
  lemma {:induction false} SumLinear(lo: int, hi: int, c: real, f: int -> real, d: real, g: int -> real, h: int -> real)
    requires forall i :: lo <= i < hi ==> h(i) == c * f(i) + d * g(i)
    ensures Sum(lo, hi, h) == c * Sum(lo, hi, f) + d * Sum(lo, hi, g)
    decreases hi - lo
  {
    if lo < hi {
      SumLinear(lo, hi - 1, c, f, d, g, h);
    }
  }

  lemma {:induction false} SumScale(lo: int, hi: int, c: real, f: int -> real, h: int -> real)
    requires forall i :: lo <= i < hi ==> h(i) == c * f(i)
    ensures Sum(lo, hi, h) == c * Sum(lo, hi, f)
  {
    SumLinear(lo, hi, c, f, 0.0, f, h);
  }

  lemma {:induction false} SumTimes(n: int, k: real, f: int -> real, h: int -> real)
    requires forall i :: 0 <= i < n ==> h(i) == Times(k, f(i))
    ensures Sum(0, n, h) == Times(k, Sum(0, n, f))
  {
    SumScale(0, n, k, f, h);
  }

  lemma {:induction false} SumAdd(lo: int, hi: int, f: int -> real, g: int -> real, h: int -> real)
    requires forall i :: lo <= i < hi ==> h(i) == f(i) + g(i)
    ensures Sum(lo, hi, h) == Sum(lo, hi, f) + Sum(lo, hi, g)
  {
    SumLinear(lo, hi, 1.0, f, 1.0, g, h);
  }

  lemma {:induction false} SumSplit(lo: int, mid: int, hi: int, f: int -> real)
    requires lo <= mid <= hi
    ensures Sum(lo, hi, f) == Sum(lo, mid, f) + Sum(mid, hi, f)
    decreases hi - mid
  {
    if mid < hi {
      SumSplit(lo, mid, hi - 1, f);
    }
  }

  lemma {:induction false} SumZero(lo: int, hi: int, f: int -> real)
    requires forall i :: lo <= i < hi ==> f(i) == 0.0
    ensures Sum(lo, hi, f) == 0.0
    decreases hi - lo
  {
    if lo < hi {
      SumZero(lo, hi - 1, f);
    }
  }

  /** A sum with a single non-zero term is that term. */
  lemma {:induction false} SumSingle(lo: int, hi: int, k: int, f: int -> real)
    requires lo <= k < hi
    requires forall i :: lo <= i < hi && i != k ==> f(i) == 0.0
    ensures Sum(lo, hi, f) == f(k)
  {
    SumSplit(lo, k, hi, f);
    SumSplit(k, k + 1, hi, f);
    SumZero(lo, k, f);
    SumZero(k + 1, hi, f);
    assert Sum(k, k, f) == 0.0;
    assert Sum(k, k + 1, f) == f(k);
  }

  lemma {:induction false} SumMonotone(lo: int, hi: int, f: int -> real, g: int -> real)
    requires forall i :: lo <= i < hi ==> f(i) <= g(i)
    ensures Sum(lo, hi, f) <= Sum(lo, hi, g)
    decreases hi - lo
  {
    if lo < hi {
      SumMonotone(lo, hi - 1, f, g);
    }
  }

  lemma {:induction false} SumNonNegative(lo: int, hi: int, f: int -> real)
    requires forall i :: lo <= i < hi ==> 0.0 <= f(i)
    ensures 0.0 <= Sum(lo, hi, f)
  {
    SumMonotone(lo, hi, i => 0.0, f);
    SumZero(lo, hi, i => 0.0);
  }

  /** A sum of non-negative terms is at least each of its terms. */
  lemma {:induction false} SumAtLeastTerm(lo: int, hi: int, k: int, f: int -> real)
    requires lo <= k < hi
    requires forall i :: lo <= i < hi ==> 0.0 <= f(i)
    ensures f(k) <= Sum(lo, hi, f)
  {
    SumSplit(lo, k, hi, f);
    SumSplit(k, k + 1, hi, f);
    SumNonNegative(lo, k, f);
    SumNonNegative(k + 1, hi, f);
    assert Sum(k, k, f) == 0.0;
    assert Sum(k, k + 1, f) == f(k);
  }

  /** Termwise smaller sums are equal exactly when every term is. */
  lemma {:induction false} SumEqualIff(lo: int, hi: int, f: int -> real, g: int -> real)
    requires forall i :: lo <= i < hi ==> f(i) <= g(i)
    ensures Sum(lo, hi, f) <= Sum(lo, hi, g)
    ensures Sum(lo, hi, f) == Sum(lo, hi, g) <==> forall i :: lo <= i < hi ==> f(i) == g(i)
    decreases hi - lo
  {
    if lo < hi {
      SumEqualIff(lo, hi - 1, f, g);
    }
  }

  /** Exchanging the order of a double sum, given its row sums and column sums. */
  lemma {:induction false} SumExchange(m: int, n: int, f: (int, int) -> real, rows: int -> real, columns: int -> real)
    requires forall i :: 0 <= i < m ==> rows(i) == Sum(0, n, j => f(i, j))
    requires forall j :: 0 <= j < n ==> columns(j) == Sum(0, m, i => f(i, j))
    ensures Sum(0, m, rows) == Sum(0, n, columns)
    decreases m
  {
    if m <= 0 {
      SumZero(0, n, columns);
    } else {
      var shorter := j => Sum(0, m - 1, i => f(i, j));
      SumExchange(m - 1, n, f, rows, shorter);
      var last := j => f(m - 1, j);
      SumCongruence(0, n, last, j => f(m - 1, j));
      forall j | 0 <= j < n
        ensures columns(j) == shorter(j) + last(j)
      {
        var c := i => f(i, j);
        SumCongruence(0, m, c, i => f(i, j));
        SumCongruence(0, m - 1, c, i => f(i, j));
      }
      SumAdd(0, n, shorter, last, columns);
    }
  }

  // ------------------------------------------------------------- Cauchy-Schwarz

  lemma {:induction false} SquareLeMeansLe(t: real, s: real)
    requires s >= 0.0 && t * t <= s * s
    ensures t <= s
  {
    var d, e := t - s, t + s;
    assert d * e == t * t - s * s;
    if d > 0.0 {
      PositiveProduct(d, e, d * e);
    }
  }

  lemma {:induction false} NonNegativeProduct(a: real, b: real, p: real)
    requires a >= 0.0 && b >= 0.0 && p == a * b
    ensures p >= 0.0
  {}

  lemma {:induction false} PositiveProduct(a: real, b: real, p: real)
    requires a > 0.0 && b > 0.0 && p == a * b
    ensures p > 0.0
  {}

  /** [[x, z], [z, y]] is positive semidefinite. */
  ghost predicate Psd2(x: real, y: real, z: real) {
    x >= 0.0 && y >= 0.0 && z * z <= x * y
  }

  lemma {:induction false} ProductLe(a: real, b: real, c: real, d: real)
    requires 0.0 <= a <= b && 0.0 <= c <= d
    ensures a * c <= b * d
  {
    assert (b - a) * c >= 0.0;
    assert b * (d - c) >= 0.0;
  }

  lemma {:induction false} Psd2Add(x: real, y: real, z: real, x': real, y': real, z': real)
    requires Psd2(x, y, z) && Psd2(x', y', z')
    ensures Psd2(x + x', y + y', z + z')
  {
    var p, q := x * y', x' * y;
    assert p >= 0.0 && q >= 0.0;
    ProductLe(z * z, x * y, z' * z', x' * y');
    assert (z * z') * (z * z') == (z * z) * (z' * z');
    assert (x * y) * (x' * y') == p * q;
    assert (p + q) * (p + q) == 4.0 * (p * q) + (p - q) * (p - q);
    assert (2.0 * (z * z')) * (2.0 * (z * z')) == 4.0 * ((z * z') * (z * z'));
    SquareLeMeansLe(2.0 * (z * z'), p + q);
    assert (z + z') * (z + z') == z * z + 2.0 * (z * z') + z' * z';
    assert (x + x') * (y + y') == x * y + p + q + x' * y';
  }

  /** Sums of positive semidefinite 2x2 matrices are positive semidefinite: (sum z)^2 <= (sum x) (sum y). */
  lemma {:induction false} SumPsd2(lo: int, hi: int, x: int -> real, y: int -> real, z: int -> real)
    requires forall i :: lo <= i < hi ==> Psd2(x(i), y(i), z(i))
    ensures Psd2(Sum(lo, hi, x), Sum(lo, hi, y), Sum(lo, hi, z))
    decreases hi - lo
  {
    if lo < hi {
      SumPsd2(lo, hi - 1, x, y, z);
      Psd2Add(Sum(lo, hi - 1, x), Sum(lo, hi - 1, y), Sum(lo, hi - 1, z), x(hi - 1), y(hi - 1), z(hi - 1));
    }
  }
}
