/** Cross-covariances of the merged polarization and null checks, and positive semidefiniteness. */
module MergeCovariance {
  import opened Numeric
  import opened MergePixel

  ghost function Tri(x: real, y: real, c: real): real { x * y * c }

  /** The error matrix of (P, N1, N2): three variances and three covariances. */
  datatype Matrix3 = Matrix3(v0: real, v1: real, v2: real, c01: real, c02: real, c12: real) {
    ghost function Form(a: real, b: real, c: real): real {
      Quad(a, v0) + Quad(b, v1) + Quad(c, v2) + 2.0 * Tri(a, b, c01) + 2.0 * Tri(a, c, c02) + 2.0 * Tri(b, c, c12)
    }

    ghost predicate Psd() {
      forall a, b, c :: Form(a, b, c) >= 0.0
    }
  }

  /** What one order contributes to a pixel: three cells and their covariances, zero outside the order. */
  datatype Order = Order(p: Cell, n1: Cell, n2: Cell, c01: Num, c02: Num, c12: Num) {
    function Matrix(): Matrix3 {
      Matrix3(p.Variance(), n1.Variance(), n2.Variance(), ValueOr0(c01), ValueOr0(c02), ValueOr0(c12))
    }

    /** The error matrix is positive semidefinite on the quantities the order contributes. */
    ghost predicate PsdWhereWeighted() {
      forall a, b, c ::
        (p.Weight() == 0.0 ==> a == 0.0) && (n1.Weight() == 0.0 ==> b == 0.0) && (n2.Weight() == 0.0 ==> c == 0.0)
        ==> Matrix().Form(a, b, c) >= 0.0
    }
  }

  function CrossTerm(first: seq<Cell>, second: seq<Cell>, covariances: seq<Num>, i: int): real {
    if 0 <= i < |covariances| then W(first, i) * W(second, i) * ValueOr0(covariances[i]) else 0.0
  }

  ghost function CrossSum(first: seq<Cell>, second: seq<Cell>, covariances: seq<Num>): real {
    Sum(0, |covariances|, i => CrossTerm(first, second, covariances, i))
  }

  /** Zero where a quantity has no weight; otherwise a non-finite covariance of any order reaches the result,
      because a zero weight does not cancel it. */
  ghost function MergedCross(first: seq<Cell>, second: seq<Cell>, covariances: seq<Num>): Num {
    if !(TotalWeight(first) > 0.0 && TotalWeight(second) > 0.0) then Val(0.0)
    else if Missing in covariances then Missing
    else Val(Ratio(CrossSum(first, second, covariances), TotalWeight(first), TotalWeight(second)))
  }

  // ------------------------------------------------------------ normalised weights

  ghost function Share(cells: seq<Cell>, i: int): real
    requires TotalWeight(cells) > 0.0
  {
    W(cells, i) / TotalWeight(cells)
  }

  lemma {:induction false} ScaledProduct(w: real, u: real, c: real, s: real, t: real, r: real, q: real)
    requires s > 0.0 && t > 0.0 && r * s == w && q * t == u
    ensures Ratio(w * u * c, s, t) == Tri(r, q, c)
  {
    RatioIs(w * u * c, s, t, Tri(r, q, c));
  }

  /** Dividing a sum by the product of the weight totals distributes over the terms. */
  lemma {:induction false} SumOverTotals(n: int, s: real, t: real, terms: int -> real, scaled: int -> real)
    requires s > 0.0 && t > 0.0
    requires forall i :: 0 <= i < n ==> Ratio(terms(i), s, t) == scaled(i)
    ensures Ratio(Sum(0, n, terms), s, t) == Sum(0, n, scaled)
  {
    var p := s * t;
    forall i | 0 <= i < n
      ensures terms(i) == p * scaled(i)
    {
      RatioIs(terms(i), s, t, scaled(i));
    }
    SumScale(0, n, p, scaled, terms);
    RatioIs(Sum(0, n, terms), s, t, Sum(0, n, scaled));
  }

  lemma {:induction false} VarianceShare(cells: seq<Cell>, i: int)
    requires TotalWeight(cells) > 0.0
    ensures Ratio(VarianceTerm(cells, i), TotalWeight(cells), TotalWeight(cells)) == Quad(Share(cells, i), Variance(cells, i))
  {
    var t := TotalWeight(cells);
    ScaledProduct(W(cells, i), W(cells, i), Variance(cells, i), t, t, Share(cells, i), Share(cells, i));
  }

  /** The merged variance as a sum over normalised weights. */
  lemma {:induction false} VarianceByShares(cells: seq<Cell>, terms: int -> real, scaled: int -> real)
    requires TotalWeight(cells) > 0.0
    requires forall i :: terms(i) == VarianceTerm(cells, i)
    requires forall i :: 0 <= i < |cells| ==> scaled(i) == Quad(Share(cells, i), Variance(cells, i))
    ensures MergedVariance(cells) == Val(Sum(0, |cells|, scaled))
  {
    forall i | 0 <= i < |cells|
      ensures Ratio(terms(i), TotalWeight(cells), TotalWeight(cells)) == scaled(i)
    {
      VarianceShare(cells, i);
    }
    SumOverTotals(|cells|, TotalWeight(cells), TotalWeight(cells), terms, scaled);
    SumCongruence(0, |cells|, terms, i => VarianceTerm(cells, i));
  }

  lemma {:induction false} CrossShare(first: seq<Cell>, second: seq<Cell>, covariances: seq<Num>, i: int)
    requires TotalWeight(first) > 0.0 && TotalWeight(second) > 0.0 && 0 <= i < |covariances|
    ensures Ratio(CrossTerm(first, second, covariances, i), TotalWeight(first), TotalWeight(second))
         == Tri(Share(first, i), Share(second, i), ValueOr0(covariances[i]))
  {
    ScaledProduct(W(first, i), W(second, i), ValueOr0(covariances[i]), TotalWeight(first), TotalWeight(second),
                  Share(first, i), Share(second, i));
  }

  /** The merged cross-covariance as a sum over the normalised weights of both quantities. */
  lemma {:induction false} CrossByShares(first: seq<Cell>, second: seq<Cell>, covariances: seq<Num>,
                                         terms: int -> real, scaled: int -> real)
    requires TotalWeight(first) > 0.0 && TotalWeight(second) > 0.0 && Missing !in covariances
    requires forall i :: terms(i) == CrossTerm(first, second, covariances, i)
    requires forall i :: 0 <= i < |covariances| ==>
      scaled(i) == Tri(Share(first, i), Share(second, i), ValueOr0(covariances[i]))
    ensures MergedCross(first, second, covariances) == Val(Sum(0, |covariances|, scaled))
  {
    forall i | 0 <= i < |covariances|
      ensures Ratio(terms(i), TotalWeight(first), TotalWeight(second)) == scaled(i)
    {
      CrossShare(first, second, covariances, i);
    }
    SumOverTotals(|covariances|, TotalWeight(first), TotalWeight(second), terms, scaled);
    SumCongruence(0, |covariances|, terms, i => CrossTerm(first, second, covariances, i));
  }

  // ------------------------------------------------------- positive semidefiniteness

  function Cells0(orders: seq<Order>): seq<Cell> {
    seq(|orders|, i requires 0 <= i < |orders| => orders[i].p)
  }

  function Cells1(orders: seq<Order>): seq<Cell> {
    seq(|orders|, i requires 0 <= i < |orders| => orders[i].n1)
  }

  function Cells2(orders: seq<Order>): seq<Cell> {
    seq(|orders|, i requires 0 <= i < |orders| => orders[i].n2)
  }

  function Cross01(orders: seq<Order>): seq<Num> {
    seq(|orders|, i requires 0 <= i < |orders| => orders[i].c01)
  }

  function Cross02(orders: seq<Order>): seq<Num> {
    seq(|orders|, i requires 0 <= i < |orders| => orders[i].c02)
  }

  function Cross12(orders: seq<Order>): seq<Num> {
    seq(|orders|, i requires 0 <= i < |orders| => orders[i].c12)
  }

  /** All three merged quantities have weight and every covariance handed in is finite. */
  ghost predicate Mergeable(orders: seq<Order>) {
    && TotalWeight(Cells0(orders)) > 0.0 && TotalWeight(Cells1(orders)) > 0.0 && TotalWeight(Cells2(orders)) > 0.0
    && forall i :: 0 <= i < |orders| ==> orders[i].c01.Val? && orders[i].c02.Val? && orders[i].c12.Val?
  }

  /** Six sums added up, the last three twice. */
  lemma {:induction false} SumSix(n: int, f0: int -> real, f1: int -> real, f2: int -> real, f3: int -> real, f4: int -> real,
               f5: int -> real, total: int -> real)
    requires forall i :: 0 <= i < n ==> total(i) == f0(i) + f1(i) + f2(i) + 2.0 * f3(i) + 2.0 * f4(i) + 2.0 * f5(i)
    ensures Sum(0, n, total) == Sum(0, n, f0) + Sum(0, n, f1) + Sum(0, n, f2)
                              + 2.0 * Sum(0, n, f3) + 2.0 * Sum(0, n, f4) + 2.0 * Sum(0, n, f5)
  {
    var a := i => f0(i) + f1(i);
    var b := i => f2(i) + 2.0 * f3(i);
    var c := i => 2.0 * f4(i) + 2.0 * f5(i);
    SumAdd(0, n, f0, f1, a);
    SumLinear(0, n, 1.0, f2, 2.0, f3, b);
    SumLinear(0, n, 2.0, f4, 2.0, f5, c);
    var ab := i => a(i) + b(i);
    SumAdd(0, n, a, b, ab);
    SumAdd(0, n, ab, c, total);
  }

  lemma {:induction false} SumTri(n: int, a: real, b: real, x: int -> real, y: int -> real, c: int -> real,
                                  terms: int -> real, scaled: int -> real)
    requires forall i :: 0 <= i < n ==> scaled(i) == Tri(x(i), y(i), c(i))
    requires forall i :: 0 <= i < n ==> terms(i) == Tri(Times(a, x(i)), Times(b, y(i)), c(i))
    ensures Sum(0, n, terms) == Tri(a, b, Sum(0, n, scaled))
  {
    forall i | 0 <= i < n
      ensures terms(i) == Times(Times(a, b), scaled(i))
    {}
    SumTimes(n, Times(a, b), scaled, terms);
  }

  lemma {:induction false} SumQuad(n: int, a: real, x: int -> real, v: int -> real, terms: int -> real, scaled: int -> real)
    requires forall i :: 0 <= i < n ==> scaled(i) == Quad(x(i), v(i))
    requires forall i :: 0 <= i < n ==> terms(i) == Quad(Times(a, x(i)), v(i))
    ensures Sum(0, n, terms) == Quad(a, Sum(0, n, scaled))
  {
    forall i | 0 <= i < n
      ensures scaled(i) == Tri(x(i), x(i), v(i)) && terms(i) == Tri(Times(a, x(i)), Times(a, x(i)), v(i))
    {}
    SumTri(n, a, a, x, x, v, terms, scaled);
  }

  /** The sums that make up one merged variance and one merged covariance, scaled by the coefficients of a form. */
  lemma {:induction false} ScaledVariance(cells: seq<Cell>, a: real, terms: int -> real)
    requires TotalWeight(cells) > 0.0
    requires forall i :: 0 <= i < |cells| ==> terms(i) == Quad(Times(a, Share(cells, i)), Variance(cells, i))
    ensures MergedVariance(cells).Val? && Sum(0, |cells|, terms) == Quad(a, MergedVariance(cells).v)
  {
    var scaled := i => Quad(Share(cells, i), Variance(cells, i));
    VarianceByShares(cells, i => VarianceTerm(cells, i), scaled);
    SumQuad(|cells|, a, i => Share(cells, i), i => Variance(cells, i), terms, scaled);
  }

  function CovarianceAt(covariances: seq<Num>, i: int): real {
    if 0 <= i < |covariances| then ValueOr0(covariances[i]) else 0.0
  }

  lemma {:induction false} ScaledCross(first: seq<Cell>, second: seq<Cell>, covariances: seq<Num>, a: real, b: real,
                                       terms: int -> real)
    requires TotalWeight(first) > 0.0 && TotalWeight(second) > 0.0 && Missing !in covariances
    requires forall i :: 0 <= i < |covariances| ==>
      terms(i) == Tri(Times(a, Share(first, i)), Times(b, Share(second, i)), CovarianceAt(covariances, i))
    ensures MergedCross(first, second, covariances).Val?
    ensures Sum(0, |covariances|, terms) == Tri(a, b, MergedCross(first, second, covariances).v)
  {
    var scaled := i => Tri(Share(first, i), Share(second, i), CovarianceAt(covariances, i));
    CrossByShares(first, second, covariances, i => CrossTerm(first, second, covariances, i), scaled);
    SumTri(|covariances|, a, b, i => Share(first, i), i => Share(second, i), i => CovarianceAt(covariances, i), terms, scaled);
  }

  /** The merged error matrix. */
  ghost function MergedMatrix(orders: seq<Order>): Matrix3 {
    var c0, c1, c2 := Cells0(orders), Cells1(orders), Cells2(orders);
    Matrix3(ValueOr0(MergedVariance(c0)), ValueOr0(MergedVariance(c1)), ValueOr0(MergedVariance(c2)),
            ValueOr0(MergedCross(c0, c1, Cross01(orders))), ValueOr0(MergedCross(c0, c2, Cross02(orders))),
            ValueOr0(MergedCross(c1, c2, Cross12(orders))))
  }

  /** The quadratic form of order i at the coefficients scaled by its shares. */
  ghost function OrderForm(orders: seq<Order>, a: real, b: real, c: real, i: int): real
    requires Mergeable(orders) && 0 <= i < |orders|
  {
    orders[i].Matrix().Form(Times(a, Share(Cells0(orders), i)), Times(b, Share(Cells1(orders), i)), Times(c,
        Share(Cells2(orders), i)))
  }

  /** The merged form is the sum of the forms of the orders. */
  lemma {:induction false} MergedForm(orders: seq<Order>, a: real, b: real, c: real, forms: int -> real)
    requires Mergeable(orders)
    requires forall i :: 0 <= i < |orders| ==> forms(i) == OrderForm(orders, a, b, c, i)
    ensures MergedMatrix(orders).Form(a, b, c) == Sum(0, |orders|, forms)
  {
    var c0, c1, c2 := Cells0(orders), Cells1(orders), Cells2(orders);
    var f0 := i => Quad(Times(a, Share(c0, i)), Variance(c0, i));
    var f1 := i => Quad(Times(b, Share(c1, i)), Variance(c1, i));
    var f2 := i => Quad(Times(c, Share(c2, i)), Variance(c2, i));
    var f3 := i => Tri(Times(a, Share(c0, i)), Times(b, Share(c1, i)), CovarianceAt(Cross01(orders), i));
    var f4 := i => Tri(Times(a, Share(c0, i)), Times(c, Share(c2, i)), CovarianceAt(Cross02(orders), i));
    var f5 := i => Tri(Times(b, Share(c1, i)), Times(c, Share(c2, i)), CovarianceAt(Cross12(orders), i));
    ScaledVariance(c0, a, f0);
    ScaledVariance(c1, b, f1);
    ScaledVariance(c2, c, f2);
    ScaledCross(c0, c1, Cross01(orders), a, b, f3);
    ScaledCross(c0, c2, Cross02(orders), a, c, f4);
    ScaledCross(c1, c2, Cross12(orders), b, c, f5);
    SumSix(|orders|, f0, f1, f2, f3, f4, f5, forms);
  }

  lemma {:induction false} OrderFormSign(orders: seq<Order>, a: real, b: real, c: real, i: int)
    requires Mergeable(orders) && 0 <= i < |orders| && orders[i].PsdWhereWeighted()
    ensures OrderForm(orders, a, b, c, i) >= 0.0
  {}

  lemma {:induction false} MergedFormSign(orders: seq<Order>, a: real, b: real, c: real)
    requires Mergeable(orders)
    requires forall i :: 0 <= i < |orders| ==> orders[i].PsdWhereWeighted()
    ensures MergedMatrix(orders).Form(a, b, c) >= 0.0
  {
    var forms := i => if 0 <= i < |orders| then OrderForm(orders, a, b, c, i) else 0.0;
    MergedForm(orders, a, b, c, forms);
    forall i | 0 <= i < |orders|
      ensures forms(i) >= 0.0
    {
      OrderFormSign(orders, a, b, c, i);
    }
    SumNonNegative(0, |orders|, forms);
  }

  /** Merging any number of orders, with different weights per quantity, keeps the error matrix positive
      semidefinite. */
  lemma {:induction false} MergeKeepsPsd(orders: seq<Order>)
    requires Mergeable(orders)
    requires forall i :: 0 <= i < |orders| ==> orders[i].PsdWhereWeighted()
    ensures MergedMatrix(orders).Psd()
  {
    forall a, b, c
      ensures MergedMatrix(orders).Form(a, b, c) >= 0.0
    {
      MergedFormSign(orders, a, b, c);
    }
  }

  /** At a pixel where both quantities have weight, the merged cross-covariance is finite exactly when it is finite
      in every order that covers the pixel, also in those whose weight is zero. Elsewhere it is zero. */
  lemma {:induction false} CrossFiniteIff(first: seq<Cell>, second: seq<Cell>, covariances: seq<Num>)
    ensures TotalWeight(first) > 0.0 && TotalWeight(second) > 0.0 ==>
      (MergedCross(first, second, covariances).Val? <==> forall i :: 0 <= i < |covariances| ==> covariances[i].Val?)
    ensures TotalWeight(first) <= 0.0 || TotalWeight(second) <= 0.0 ==> MergedCross(first, second, covariances) == Val(0.0)
  {}

  /** An unusable order (no value, no finite covariance) next to a usable one: value and variance of the merge are
      those of the usable order, but the cross-covariance of the merge is lost. */
  lemma {:induction false} UnusableOrderPoisons(good: Order, covariance: real)
    requires good.p.Weight() > 0.0 && good.n1.Weight() > 0.0
    ensures
      var lost := Cell(Missing, Missing, good.p.blaze);
      && MergedValue([good.p, lost]) == good.p.value
      && MergedVariance([good.p, lost]) == good.p.variance
      && MergedCross([good.p], [good.n1], [Val(covariance)]).Val?
      && MergedCross([good.p, lost], [good.n1, lost], [Val(covariance), Missing]) == Missing
  {
    var lost := Cell(Missing, Missing, good.p.blaze);
    SingleOrder([good.p, lost], 0);
    SumSingle(0, 2, 0, i => W([good.p, lost], i));
    SumSingle(0, 2, 0, i => W([good.n1, lost], i));
    SumSingle(0, 1, 0, i => W([good.p], i));
    SumSingle(0, 1, 0, i => W([good.n1], i));
    assert [Val(covariance), Missing][1] == Missing;
  }
}
