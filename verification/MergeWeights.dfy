/** What the merged value and variance of a pixel are in terms of the values, variances and blaze weights of the orders. */
module MergeWeights {
  import opened Numeric
  import opened MergePixel

  // ------------------------------------------------------------------- on the raw fields

  predicate Measured(c: Cell) { c.value.Val? && c.variance.Val? && c.variance.v > 0.0 }

  /** Blaze over variance, times a number that depends on the cell. */
  function PrecisionOf(c: Cell): real { if Measured(c) then Max(c.blaze, 0.0) / c.variance.v else 0.0 }

  function ValueOf(c: Cell): real { if Measured(c) then Max(c.blaze, 0.0) * c.value.v / c.variance.v else 0.0 }

  function SquareOf(c: Cell): real { if Measured(c) then Max(c.blaze, 0.0) * Max(c.blaze, 0.0) / c.variance.v else 0.0 }

  function DeviationOf(c: Cell, v: real): real {
    if Measured(c) then Max(c.blaze, 0.0) * ((c.value.v - v) * (c.value.v - v)) / c.variance.v else 0.0
  }

  function Of(cells: seq<Cell>, f: Cell -> real, i: int): real { if 0 <= i < |cells| then f(cells[i]) else 0.0 }

  /** The sum of f over the cells. */
  ghost function Over(cells: seq<Cell>, f: Cell -> real): real { Sum(0, |cells|, i => Of(cells, f, i)) }

  lemma {:induction false} CellTerms(c: Cell)
    ensures c.Weight() == PrecisionOf(c) && c.Weight() * c.Value() == ValueOf(c)
    ensures c.Weight() * c.Weight() * c.Variance() == SquareOf(c)
  {
    if Measured(c) {
      var b, v := Max(c.blaze, 0.0), c.variance.v;
      var w := b / v;
      assert w * v == b;
      QuotientIs(b * c.value.v, v, w * c.value.v);
      QuotientIs(b * b, v, w * w * v);
    }
  }

  lemma {:induction false} QuotientIs(a: real, b: real, q: real)
    requires b > 0.0 && q * b == a
    ensures a / b == q
  {}

  lemma {:induction false} RawSums(cells: seq<Cell>)
    ensures TotalWeight(cells) == Over(cells, PrecisionOf) && Numerator(cells) == Over(cells, ValueOf)
    ensures VarianceSum(cells) == Over(cells, SquareOf)
  {
    forall i | 0 <= i < |cells|
      ensures W(cells, i) == Of(cells, PrecisionOf, i) && ValueTerm(cells, i) == Of(cells, ValueOf, i)
      ensures VarianceTerm(cells, i) == Of(cells, SquareOf, i)
    {
      CellTerms(cells[i]);
    }
    SumCongruence(0, |cells|, i => W(cells, i), i => Of(cells, PrecisionOf, i));
    SumCongruence(0, |cells|, i => ValueTerm(cells, i), i => Of(cells, ValueOf, i));
    SumCongruence(0, |cells|, i => VarianceTerm(cells, i), i => Of(cells, SquareOf, i));
  }

  lemma {:induction false} PositiveIff(cells: seq<Cell>)
    ensures Over(cells, PrecisionOf) >= 0.0
    ensures Over(cells, PrecisionOf) > 0.0 <==> exists i :: 0 <= i < |cells| && Measured(cells[i]) && cells[i].blaze > 0.0
  {
    forall i | 0 <= i < |cells|
      ensures Of(cells, PrecisionOf, i) >= 0.0
      ensures Of(cells, PrecisionOf, i) > 0.0 <==> Measured(cells[i]) && cells[i].blaze > 0.0
    {
      PrecisionSign(cells[i]);
    }
    var f := i => Of(cells, PrecisionOf, i);
    SumNonNegative(0, |cells|, f);
    if i :| 0 <= i < |cells| && Measured(cells[i]) && cells[i].blaze > 0.0 {
      SumAtLeastTerm(0, |cells|, i, f);
    } else {
      SumZero(0, |cells|, f);
    }
  }

  lemma {:induction false} PrecisionSign(c: Cell)
    ensures PrecisionOf(c) >= 0.0 && (PrecisionOf(c) > 0.0 <==> Measured(c) && c.blaze > 0.0)
  {
    if Measured(c) {
      var b, v := Max(c.blaze, 0.0), c.variance.v;
      var q := b / v;
      assert q * v == b;
      if q < 0.0 {
        PositiveProduct(-q, v, -q * v);
      }
    }
  }

  ghost predicate Contributes(cells: seq<Cell>) {
    exists i :: 0 <= i < |cells| && Measured(cells[i]) && cells[i].blaze > 0.0
  }

  /** A pixel has a merged value exactly when some order measures it with a positive blaze. The value is then the mean with
      blaze over variance as weights, and its variance is that of this mean. */
  lemma {:induction false} MergedIs(cells: seq<Cell>)
    ensures MergedValue(cells).Val? <==> Contributes(cells)
    ensures MergedVariance(cells).Val? <==> Contributes(cells)
    ensures Contributes(cells) ==>
      && Over(cells, PrecisionOf) > 0.0
      && MergedValue(cells).v * Over(cells, PrecisionOf) == Over(cells, ValueOf)
      && MergedVariance(cells).v * (Over(cells, PrecisionOf) * Over(cells, PrecisionOf)) == Over(cells, SquareOf)
  {
    RawSums(cells);
    PositiveIff(cells);
    if Contributes(cells) {
      var t := Over(cells, PrecisionOf);
      RatioIs(VarianceSum(cells), t, t, MergedVariance(cells).v);
    }
  }

  // ------------------------------------------------------------------------- least squares

  /** Squared deviations of the measured values from v, each over its variance and times its blaze. */
  ghost function ChiSquare(cells: seq<Cell>, v: real): real { Over(cells, c => DeviationOf(c, v)) }

  ghost function Centred(q: real, n: real, t: real, v: real): real { q - 2.0 * v * n + v * v * t }

  function SecondOf(c: Cell): real { if Measured(c) then Max(c.blaze, 0.0) * (c.value.v * c.value.v) / c.variance.v else 0.0 }

  lemma {:induction false} TimesQuotient(b: real, x: real, s: real, w: real)
    requires s > 0.0 && w == b / s
    ensures b * x / s == w * x
  {
    assert w * s == b;
    assert (w * x) * s == (w * s) * x;
    QuotientIs(b * x, s, w * x);
  }

  lemma {:induction false} ExpandedSquare(w: real, x: real, v: real)
    ensures w * ((x - v) * (x - v)) == Centred(w * (x * x), w * x, w, v)
  {}

  lemma {:induction false} MeasuredTerms(c: Cell, x: real, w: real)
    requires Measured(c) && x == c.value.v && w == PrecisionOf(c)
    ensures ValueOf(c) == w * x && SecondOf(c) == w * (x * x)
  {
    TimesQuotient(Max(c.blaze, 0.0), x, c.variance.v, w);
    TimesQuotient(Max(c.blaze, 0.0), x * x, c.variance.v, w);
  }

  lemma {:induction false} MeasuredDeviation(c: Cell, x: real, w: real, v: real)
    requires Measured(c) && x == c.value.v && w == PrecisionOf(c)
    ensures DeviationOf(c, v) == w * ((x - v) * (x - v))
  {
    TimesQuotient(Max(c.blaze, 0.0), (x - v) * (x - v), c.variance.v, w);
  }

  lemma {:induction false} DeviationTerms(c: Cell, v: real)
    ensures DeviationOf(c, v) == Centred(SecondOf(c), ValueOf(c), PrecisionOf(c), v)
  {
    if Measured(c) {
      MeasuredTerms(c, c.value.v, PrecisionOf(c));
      MeasuredDeviation(c, c.value.v, PrecisionOf(c), v);
      ExpandedSquare(PrecisionOf(c), c.value.v, v);
    }
  }

  lemma {:induction false} CentredAdd(q: real, n: real, t: real, q': real, n': real, t': real, v: real)
    ensures Centred(q, n, t, v) + Centred(q', n', t', v) == Centred(q + q', n + n', t + t', v)
  {}

  lemma {:induction false} CentredSum(n: int, q: int -> real, x: int -> real, t: int -> real, h: int -> real, v: real)
    requires forall i :: 0 <= i < n ==> h(i) == Centred(q(i), x(i), t(i), v)
    ensures Sum(0, n, h) == Centred(Sum(0, n, q), Sum(0, n, x), Sum(0, n, t), v)
    decreases n
  {
    if n > 0 {
      CentredSum(n - 1, q, x, t, h, v);
      CentredAdd(Sum(0, n - 1, q), Sum(0, n - 1, x), Sum(0, n - 1, t), q(n - 1), x(n - 1), t(n - 1), v);
    }
  }

  lemma {:induction false} ChiSquareIs(cells: seq<Cell>, v: real)
    ensures ChiSquare(cells, v) == Centred(Over(cells, SecondOf), Over(cells, ValueOf), Over(cells, PrecisionOf), v)
  {
    forall i | 0 <= i < |cells|
      ensures Of(cells, c => DeviationOf(c, v), i)
           == Centred(Of(cells, SecondOf, i), Of(cells, ValueOf, i), Of(cells, PrecisionOf, i), v)
    {
      DeviationTerms(cells[i], v);
    }
    CentredSum(|cells|, i => Of(cells, SecondOf, i), i => Of(cells, ValueOf, i), i => Of(cells, PrecisionOf, i),
               i => Of(cells, c => DeviationOf(c, v), i), v);
  }

  /** The merged value is the least-squares fit of one number to the orders: no other has as small a chi-square. */
  lemma {:induction false} MergedMinimisesChiSquare(cells: seq<Cell>, v: real)
    requires Contributes(cells)
    ensures MergedValue(cells).Val? && ChiSquare(cells, MergedValue(cells).v) <= ChiSquare(cells, v)
    ensures ChiSquare(cells, MergedValue(cells).v) == ChiSquare(cells, v) <==> v == MergedValue(cells).v
  {
    MergedIs(cells);
    var m := MergedValue(cells).v;
    ChiSquareIs(cells, v);
    ChiSquareIs(cells, m);
    LeastSquares(Over(cells, SecondOf), Over(cells, ValueOf), Over(cells, PrecisionOf), m, v);
  }

  lemma {:induction false} LeastSquares(q: real, n: real, t: real, m: real, v: real)
    requires t > 0.0 && m * t == n
    ensures Centred(q, n, t, m) <= Centred(q, n, t, v)
    ensures Centred(q, n, t, m) == Centred(q, n, t, v) <==> v == m
  {
    var d := v - m;
    assert v * n == v * m * t && m * n == m * m * t;
    assert Centred(q, n, t, v) - Centred(q, n, t, m) == t * (d * d);
    SquareTimes(t, d, d * d, t * (d * d));
  }

  lemma {:induction false} SquareTimes(t: real, d: real, e: real, p: real)
    requires t > 0.0 && e == d * d && p == t * e
    ensures p >= 0.0 && (p == 0.0 <==> d == 0.0)
  {
    if d != 0.0 {
      if d > 0.0 {
        PositiveProduct(d, d, e);
      } else {
        PositiveProduct(-d, -d, e);
      }
      PositiveProduct(t, e, p);
    }
  }

  // ------------------------------------------------------------------------- consequences

  lemma {:induction false} ScaledQuotient(k: real, n: real, t: real, n': real, t': real)
    requires k > 0.0 && t > 0.0 && t' > 0.0 && n' == Times(k, n) && t' == Times(k, t)
    ensures n' / t' == n / t
  {
    var v := n / t;
    assert v * t == n;
    assert v * (k * t) == k * (v * t);
    QuotientIs(n', t', v);
  }

  lemma {:induction false} ScaledRatio(k: real, kk: real, q: real, t: real, q': real, t': real)
    requires t > 0.0 && t' > 0.0 && kk == k * k && q' == Times(kk, q) && t' == Times(k, t)
    ensures Ratio(q', t', t') == Ratio(q, t, t)
  {
    var w := Ratio(q, t, t);
    RatioIs(q, t, t, w);
    assert t' * t' == kk * (t * t);
    assert (kk * (t * t)) * w == kk * ((t * t) * w);
    RatioIs(q', t', t', w);
  }

  /** Lists whose sums differ by factors k and k * k merge alike. */
  lemma {:induction false} SameMerge(cells: seq<Cell>, others: seq<Cell>, k: real, kk: real)
    requires k > 0.0 && kk == k * k && Over(others, PrecisionOf) == Times(k, Over(cells, PrecisionOf))
    requires Over(others, ValueOf) == Times(k, Over(cells, ValueOf))
    requires Over(others, SquareOf) == Times(kk, Over(cells, SquareOf))
    ensures MergedValue(cells) == MergedValue(others) && MergedVariance(cells) == MergedVariance(others)
  {
    RawSums(cells);
    RawSums(others);
    var t, u := Over(cells, PrecisionOf), Over(others, PrecisionOf);
    SameSign(k, t, u);
    if t > 0.0 {
      ScaledQuotient(k, Over(cells, ValueOf), t, Over(others, ValueOf), u);
      ScaledRatio(k, kk, Over(cells, SquareOf), t, Over(others, SquareOf), u);
    }
  }

  lemma {:induction false} SameSign(k: real, t: real, u: real)
    requires k > 0.0 && u == k * t
    ensures u > 0.0 <==> t > 0.0
  {
    if t <= 0.0 {
      NonNegativeProduct(k, -t, k * -t);
    } else {
      PositiveProduct(k, t, u);
    }
  }

  function Brighter(cells: seq<Cell>, k: real): (r: seq<Cell>)
    ensures |r| == |cells|
  {
    seq(|cells|, i requires 0 <= i < |cells| => cells[i].(blaze := k * cells[i].blaze))
  }

  lemma {:induction false} Scaled(k: real, a: real, v: real, c: real)
    requires v > 0.0 && c == Times(k, a)
    ensures c / v == Times(k, a / v)
  {
    var q := a / v;
    assert q * v == a;
    assert (k * q) * v == k * (q * v);
    QuotientIs(c, v, k * q);
  }

  lemma {:induction false} BrighterTerms(k: real, kk: real, b: real, x: real, d: real)
    requires kk == k * k && d == k * b
    ensures d == Times(k, b) && d * x == Times(k, b * x) && d * d == Times(kk, b * b)
  {
    assert d * x == k * (b * x);
    assert d * d == (k * k) * (b * b);
  }

  lemma {:induction false} BrighterCell(c: Cell, d: Cell, k: real, kk: real)
    requires k > 0.0 && kk == k * k && d == c.(blaze := k * c.blaze)
    ensures PrecisionOf(d) == Times(k, PrecisionOf(c)) && ValueOf(d) == Times(k, ValueOf(c))
    ensures SquareOf(d) == Times(kk, SquareOf(c))
  {
    if Measured(c) {
      var b, e, x, v := Max(c.blaze, 0.0), Max(d.blaze, 0.0), c.value.v, c.variance.v;
      BrighterBlaze(c.blaze, k);
      BrighterTerms(k, kk, b, x, e);
      Scaled(k, b, v, e);
      Scaled(k, b * x, v, e * x);
      Scaled(kk, b * b, v, e * e);
    }
  }

  lemma {:induction false} BrighterBlaze(b: real, k: real)
    requires k > 0.0
    ensures Max(k * b, 0.0) == k * Max(b, 0.0)
  {
    SameSign(k, b, k * b);
    SameSign(k, -b, k * -b);
  }

  /** Scaling all blaze weights alike changes neither value nor variance. */
  lemma {:induction false} BlazeScaleIrrelevant(cells: seq<Cell>, k: real)
    requires k > 0.0
    ensures MergedValue(Brighter(cells, k)) == MergedValue(cells) && MergedVariance(Brighter(cells, k)) == MergedVariance(cells)
  {
    BrighterSums(cells, Brighter(cells, k), k, k * k);
    SameMerge(cells, Brighter(cells, k), k, k * k);
  }

  lemma {:induction false} BrighterSums(cells: seq<Cell>, others: seq<Cell>, k: real, kk: real)
    requires k > 0.0 && kk == k * k && others == Brighter(cells, k)
    ensures Over(others, PrecisionOf) == Times(k, Over(cells, PrecisionOf))
    ensures Over(others, ValueOf) == Times(k, Over(cells, ValueOf))
    ensures Over(others, SquareOf) == Times(kk, Over(cells, SquareOf))
  {
    var n := |cells|;
    forall i | 0 <= i < n
      ensures Of(others, PrecisionOf, i) == Times(k, Of(cells, PrecisionOf, i))
      ensures Of(others, ValueOf, i) == Times(k, Of(cells, ValueOf, i))
      ensures Of(others, SquareOf, i) == Times(kk, Of(cells, SquareOf, i))
    {
      BrighterCell(cells[i], others[i], k, kk);
    }
    SumTimes(n, k, i => Of(cells, PrecisionOf, i), i => Of(others, PrecisionOf, i));
    SumTimes(n, k, i => Of(cells, ValueOf, i), i => Of(others, ValueOf, i));
    SumTimes(n, kk, i => Of(cells, SquareOf, i), i => Of(others, SquareOf, i));
  }

  /** An order that measures nothing at the pixel, or has no positive blaze there, has no part in the result: replacing it by
      another such order changes nothing. */
  lemma {:induction false} NoBlazeNoPart(cells: seq<Cell>, k: nat, other: Cell)
    requires k < |cells| && !(Measured(cells[k]) && cells[k].blaze > 0.0) && !(Measured(other) && other.blaze > 0.0)
    ensures MergedValue(cells[k := other]) == MergedValue(cells) && MergedVariance(cells[k := other]) == MergedVariance(cells)
  {
    var others, n := cells[k := other], |cells|;
    assert PrecisionOf(cells[k]) == PrecisionOf(other) == ValueOf(cells[k]) == ValueOf(other) == 0.0;
    assert SquareOf(cells[k]) == SquareOf(other) == 0.0;
    SumCongruence(0, n, i => Of(cells, PrecisionOf, i), i => Of(others, PrecisionOf, i));
    SumCongruence(0, n, i => Of(cells, ValueOf, i), i => Of(others, ValueOf, i));
    SumCongruence(0, n, i => Of(cells, SquareOf, i), i => Of(others, SquareOf, i));
    SameMerge(cells, others, 1.0, 1.0);
  }

  function InverseVariance(c: Cell): real { if Measured(c) then 1.0 / c.variance.v else 0.0 }

  lemma {:induction false} EqualBlazeCell(c: Cell, b: real)
    requires b > 0.0 && (Measured(c) ==> c.blaze == b)
    ensures PrecisionOf(c) == Times(b, InverseVariance(c)) && SquareOf(c) == Times(b * b, InverseVariance(c))
  {
    if Measured(c) {
      var w := 1.0 / c.variance.v;
      assert w * c.variance.v == 1.0;
      QuotientIs(b, c.variance.v, b * w);
      QuotientIs(b * b, c.variance.v, b * b * w);
    }
  }

  /** Equal blaze weights give the plain inverse-variance mean, whose variance is the inverse of the summed precisions: the
      smallest that any combination can reach. */
  lemma {:induction false} EqualBlazesAreOptimal(cells: seq<Cell>, b: real)
    requires b > 0.0 && Contributes(cells) && forall i :: 0 <= i < |cells| && Measured(cells[i]) ==> cells[i].blaze == b
    ensures Over(cells, InverseVariance) > 0.0
    ensures MergedVariance(cells) == Val(1.0 / Over(cells, InverseVariance))
  {
    EqualBlazeSums(cells, b, b * b);
    MergedIs(cells);
    InverseTotal(b, Over(cells, InverseVariance), Over(cells, PrecisionOf), Over(cells, SquareOf), MergedVariance(cells).v);
  }

  lemma {:induction false} EqualBlazeSums(cells: seq<Cell>, b: real, bb: real)
    requires b > 0.0 && bb == b * b && forall i :: 0 <= i < |cells| && Measured(cells[i]) ==> cells[i].blaze == b
    ensures Over(cells, PrecisionOf) == Times(b, Over(cells, InverseVariance))
    ensures Over(cells, SquareOf) == Times(bb, Over(cells, InverseVariance))
  {
    var n := |cells|;
    forall i | 0 <= i < n
      ensures Of(cells, PrecisionOf, i) == Times(b, Of(cells, InverseVariance, i))
      ensures Of(cells, SquareOf, i) == Times(bb, Of(cells, InverseVariance, i))
    {
      EqualBlazeCell(cells[i], b);
    }
    SumTimes(n, b, i => Of(cells, InverseVariance, i), i => Of(cells, PrecisionOf, i));
    SumTimes(n, bb, i => Of(cells, InverseVariance, i), i => Of(cells, SquareOf, i));
  }

  lemma {:induction false} InverseTotal(b: real, s: real, t: real, q: real, v: real)
    requires b > 0.0 && t > 0.0 && t == Times(b, s) && q == Times(b * b, s) && v * (t * t) == q
    ensures s > 0.0 && v == 1.0 / s
  {
    SameSign(b, s, t);
    assert t * t == b * b * s * s;
    var w := 1.0 / s;
    assert w * s == 1.0;
    assert v * s * (b * b * s) == b * b * s;
    PositiveProduct(b, b, b * b);
    PositiveProduct(b * b, s, b * b * s);
    Unit(v * s, b * b * s);
    Unique(v, w, s);
  }

  lemma {:induction false} Unit(x: real, p: real)
    requires p > 0.0 && x * p == p
    ensures x == 1.0
  {}

  lemma {:induction false} Unique(v: real, w: real, s: real)
    requires s > 0.0 && v * s == 1.0 && w * s == 1.0
    ensures v == w
  {}
}
