/** What holds of every merged product: placement, errors, flags and gaps. */
module MergedProduct {
  import opened Numeric
  import opened Bins
  import opened LogGrid
  import opened MergePixel
  import opened MergeCovariance
  import opened Demodulation
  import opened DemodulationGroup
  import opened ErrorPropagation
  import opened Merge
  import opened MergeOrders

  /** Orders cut from the global grid are all accepted, each at the offset it was cut from. */
  lemma {:induction false} CutOrdersAreAccepted(orders: seq<OrderProduct>, grid: seq<real>, starts: seq<int>)
    requires AllShaped(orders) && StrictlyIncreasing(grid) && |starts| == |orders|
    requires forall i :: 0 <= i < |orders| ==>
      && orders[i].wavelength != []
      && SliceOf(orders[i].wavelength, grid, starts[i], starts[i] + |orders[i].wavelength|)
    ensures Placed(orders, grid, starts)
    ensures !exists i :: 0 <= i < |orders| && Place(grid, orders[i].wavelength) == None
  {
    forall i | 0 <= i < |orders|
      ensures PlacedAt(orders[i], grid, starts[i])
    {
      SliceIsAccepted(grid, orders[i].wavelength, starts[i], starts[i] + |orders[i].wavelength|);
    }
  }

  predicate PlacedAt(order: OrderProduct, grid: seq<real>, start: int) { Place(grid, order.wavelength) == Some(start) }

  /** The orders seen from pixel g, as three cells and their covariances. */
  ghost function OrdersAt(orders: seq<OrderProduct>, starts: seq<int>, g: int): (r: seq<Order>)
    requires AllShaped(orders) && |starts| == |orders|
    ensures |r| == |orders|
  {
    seq(|orders|, i requires 0 <= i < |orders| => OrderAt(orders[i], starts[i], g))
  }

  function OrderAt(order: OrderProduct, start: int, g: int): Order
    requires order.Shaped()
  {
    if Inside(order, start, g) then AsOrder(order.samples[g - start], order.blaze[g - start])
    else Order(OUTSIDE, OUTSIDE, OUTSIDE, Val(0.0), Val(0.0), Val(0.0))
  }

  lemma {:induction false} ColumnsOfOrders(orders: seq<OrderProduct>, starts: seq<int>, g: int)
    requires AllShaped(orders) && |starts| == |orders|
    ensures Cells0(OrdersAt(orders, starts, g)) == Column(orders, starts, Polarization, g)
    ensures Cells1(OrdersAt(orders, starts, g)) == Column(orders, starts, Null1, g)
    ensures Cells2(OrdersAt(orders, starts, g)) == Column(orders, starts, Null2, g)
    ensures Cross01(OrdersAt(orders, starts, g)) == CovarianceColumn(orders, starts, P1, g)
    ensures Cross02(OrdersAt(orders, starts, g)) == CovarianceColumn(orders, starts, P2, g)
    ensures Cross12(OrdersAt(orders, starts, g)) == CovarianceColumn(orders, starts, N12, g)
  {}

  /** Every sample of the order is the demodulation of four exposures with non-negative variances. */
  ghost predicate FromDemodulation(order: OrderProduct, model: SignModel)
    requires model.HasSigns()
  {
    order.Shaped() && forall k :: 0 <= k < |order.samples| ==> IsDemodulated(order.samples[k], model)
  }

  ghost predicate IsDemodulated(s: Sample, model: SignModel)
    requires model.HasSigns()
  {
    exists beams: seq<Beams>, roots: Roots ::
      |beams| == 4 && roots.Positive() && NonNegativeVariances(beams) && s == Demodulated(beams, model, roots)
  }

  lemma {:induction false} OrderAtIsPsd(order: OrderProduct, start: int, g: int, model: SignModel)
    requires model.HasSigns() && FromDemodulation(order, model)
    ensures OrderAt(order, start, g).PsdWhereWeighted()
  {
    if Inside(order, start, g) {
      assert IsDemodulated(order.samples[g - start], model);
      var beams: seq<Beams>, roots: Roots :|
        |beams| == 4 && roots.Positive() && NonNegativeVariances(beams) && order.samples[g - start] == Demodulated(beams, model, roots);
      DemodulatedErrorsArePsd(beams, model, roots, order.blaze[g - start]);
    } else {
      assert OrderAt(order, start, g).Matrix() == Matrix3(0.0, 0.0, 0.0, 0.0, 0.0, 0.0);
    }
  }

  function ErrorsAt(r: Merged, g: int): Matrix3
    requires 0 <= g < |r.polarization.variances| && g < |r.null1.variances| && g < |r.null2.variances|
    requires g < |r.c01| && g < |r.c02| && g < |r.c12|
  {
    Matrix3(ValueOr0(r.polarization.variances[g]), ValueOr0(r.null1.variances[g]), ValueOr0(r.null2.variances[g]),
            ValueOr0(r.c01[g]), ValueOr0(r.c02[g]), ValueOr0(r.c12[g]))
  }

  /** From the exposures to the merged product: wherever the three quantities and all covariances are reported, their
      error matrix is positive semidefinite. */
  lemma {:induction false} MergedErrorsArePsd(r: Merged, orders: seq<OrderProduct>, grid: seq<real>, starts: seq<int>,
                                              model: SignModel, g: int)
    requires Placed(orders, grid, starts) && IsMerge(r, orders, starts, |grid|) && 0 <= g < |grid|
    requires model.HasSigns() && forall i :: 0 <= i < |orders| ==> FromDemodulation(orders[i], model)
    requires r.polarization.values[g].Val? && r.null1.values[g].Val? && r.null2.values[g].Val?
    requires r.c01[g].Val? && r.c02[g].Val? && r.c12[g].Val?
    ensures ErrorsAt(r, g).Psd()
  {
    var all := OrdersAt(orders, starts, g);
    ColumnsOfOrders(orders, starts, g);
    CrossFiniteIff(Cells0(all), Cells1(all), Cross01(all));
    CrossFiniteIff(Cells0(all), Cells2(all), Cross02(all));
    CrossFiniteIff(Cells1(all), Cells2(all), Cross12(all));
    forall i | 0 <= i < |all|
      ensures all[i].PsdWhereWeighted()
      ensures all[i].c01.Val? && all[i].c02.Val? && all[i].c12.Val?
    {
      OrderAtIsPsd(orders[i], starts[i], g, model);
      assert Cross01(all)[i].Val? && Cross02(all)[i].Val? && Cross12(all)[i].Val?;
    }
    MergeKeepsPsd(all);
    assert ErrorsAt(r, g) == MergedMatrix(all);
  }

  lemma {:induction false} CarriedFlag(cells: seq<Cell>, dqs: seq<Quality>, i: nat, bit: nat)
    requires |cells| == |dqs| && i < |cells| && cells[i].value.Val? && bit in dqs[i]
    ensures bit in MergedQuality(cells, dqs)
  {
    MergedQualityIff(cells, dqs, bit);
  }

  /** A flag of a sample with a finite intensity is in the quality word of the pixel it is merged into. */
  lemma {:induction false} MeasuredFlagsSurvive(dq: seq<Quality>, orders: seq<OrderProduct>, starts: seq<int>, size: nat,
                                                i: nat, k: nat, bit: nat)
    requires AllShaped(orders) && |starts| == |orders| && IsMergedQuality(dq, orders, starts, size)
    requires i < |orders| && k < |orders[i].samples| && 0 <= starts[i] + k < size
    requires orders[i].samples[k].intensity.Val? && bit in orders[i].dq[k]
    ensures bit in dq[starts[i] + k]
  {
    var g := starts[i] + k;
    CarriedFlag(Column(orders, starts, Intensity, g), QualityColumn(orders, starts, g), i, bit);
  }

  /** ORDER_GAP marks exactly the pixels without a finite intensity in any order, unless an order brings the flag with it. */
  lemma {:induction false} GapIff(r: Merged, orders: seq<OrderProduct>, grid: seq<real>, starts: seq<int>, g: int)
    requires Placed(orders, grid, starts) && IsMerge(r, orders, starts, |grid|) && 0 <= g < |grid|
    requires forall i, k :: 0 <= i < |orders| && 0 <= k < |orders[i].dq| ==> ORDER_GAP !in orders[i].dq[k]
    ensures ORDER_GAP in r.dq[g] <==>
      forall i :: 0 <= i < |orders| ==> Inside(orders[i], starts[i], g) ==> orders[i].samples[g - starts[i]].intensity == Missing
  {
    var cells := Column(orders, starts, Intensity, g);
    MergedQualityIff(cells, QualityColumn(orders, starts, g), ORDER_GAP);
    forall i | 0 <= i < |orders|
      ensures cells[i].value == Missing <==>
        (Inside(orders[i], starts[i], g) ==> orders[i].samples[g - starts[i]].intensity == Missing)
    {}
  }

  // ------------------------------------------------------------------ pixels of one order

  /** No other order has this pixel. */
  ghost predicate Alone(orders: seq<OrderProduct>, starts: seq<int>, i: int, g: int)
    requires |starts| == |orders| && 0 <= i < |orders|
  {
    Inside(orders[i], starts[i], g) && forall j :: 0 <= j < |orders| && j != i ==> !Inside(orders[j], starts[j], g)
  }

  predicate Measures(value: Num, variance: Num) { value.Val? && variance.Val? && variance.v > 0.0 }

  lemma {:induction false} AloneField(orders: seq<OrderProduct>, starts: seq<int>, i: int, g: int, field: Field)
    requires AllShaped(orders) && |starts| == |orders| && 0 <= i < |orders| && Alone(orders, starts, i, g)
    requires orders[i].blaze[g - starts[i]] > 0.0
    requires CellOf(orders[i].samples[g - starts[i]], field, 1.0).Valid()
    ensures var (cells, cell) := (Column(orders, starts, field, g), CellOf(orders[i].samples[g - starts[i]], field, 1.0));
      && MergedValue(cells) == cell.value && MergedVariance(cells) == cell.variance
      && W(cells, i) > 0.0 && forall j :: 0 <= j < |orders| && j != i ==> W(cells, j) == 0.0
  {
    var cells := Column(orders, starts, field, g);
    forall j | 0 <= j < |orders| && j != i
      ensures cells[j] == OUTSIDE
    {}
    PositiveWeight(cells[i]);
    SingleOrder(cells, i);
  }

  lemma {:induction false} PositiveWeight(cell: Cell)
    requires cell.Valid() && cell.blaze > 0.0
    ensures cell.Weight() > 0.0
  {
    var w := cell.blaze / cell.variance.v;
    assert w * cell.variance.v == cell.blaze;
    SignOfFactor(w, cell.variance.v);
  }

  lemma {:induction false} NoCross(first: seq<Cell>, second: seq<Cell>, covariances: seq<Num>, j: int)
    requires W(first, j) == 0.0
    ensures CrossTerm(first, second, covariances, j) == 0.0
  {}

  lemma {:induction false} OneRatio(w: real, u: real, c: real, x: real)
    requires w > 0.0 && u > 0.0 && x == w * u * c
    ensures Ratio(x, w, u) == c
  {
    RatioIs(x, w, u, c);
  }

  lemma {:induction false} OneWeight(cells: seq<Cell>, i: int)
    requires 0 <= i < |cells| && forall j :: 0 <= j < |cells| && j != i ==> W(cells, j) == 0.0
    ensures TotalWeight(cells) == W(cells, i)
  {
    SumSingle(0, |cells|, i, j => W(cells, j));
  }

  lemma {:induction false} OneCrossTerm(first: seq<Cell>, second: seq<Cell>, covariances: seq<Num>, i: int)
    requires |first| == |covariances| && 0 <= i < |first|
    requires forall j :: 0 <= j < |first| && j != i ==> W(first, j) == 0.0
    ensures CrossSum(first, second, covariances) == CrossTerm(first, second, covariances, i)
  {
    forall j | 0 <= j < |covariances| && j != i
      ensures CrossTerm(first, second, covariances, j) == 0.0
    {
      NoCross(first, second, covariances, j);
    }
    SumSingle(0, |covariances|, i, j => CrossTerm(first, second, covariances, j));
  }

  lemma {:induction false} OneCross(first: seq<Cell>, second: seq<Cell>, covariances: seq<Num>, i: int)
    requires |first| == |second| == |covariances| && 0 <= i < |first| && W(first, i) > 0.0 && W(second, i) > 0.0
    requires forall j :: 0 <= j < |first| && j != i ==> W(first, j) == 0.0 && W(second, j) == 0.0
    requires forall j :: 0 <= j < |first| ==> covariances[j].Val?
    ensures MergedCross(first, second, covariances) == covariances[i]
  {
    OneWeight(first, i);
    OneWeight(second, i);
    OneCrossTerm(first, second, covariances, i);
    OneRatio(W(first, i), W(second, i), covariances[i].v, CrossSum(first, second, covariances));
  }

  lemma {:induction false} AlonePair(orders: seq<OrderProduct>, starts: seq<int>, i: int, g: int, pair: Pair)
    requires AllShaped(orders) && |starts| == |orders| && 0 <= i < |orders| && Alone(orders, starts, i, g)
    requires orders[i].blaze[g - starts[i]] > 0.0
    requires CellOf(orders[i].samples[g - starts[i]], First(pair), 1.0).Valid()
    requires CellOf(orders[i].samples[g - starts[i]], Second(pair), 1.0).Valid()
    requires CovarianceOf(orders[i].samples[g - starts[i]], pair).Val?
    ensures MergedCross(Column(orders, starts, First(pair), g), Column(orders, starts, Second(pair), g),
                        CovarianceColumn(orders, starts, pair, g)) == CovarianceOf(orders[i].samples[g - starts[i]], pair)
  {
    AloneField(orders, starts, i, g, First(pair));
    AloneField(orders, starts, i, g, Second(pair));
    OneCross(Column(orders, starts, First(pair), g), Column(orders, starts, Second(pair), g),
             CovarianceColumn(orders, starts, pair, g), i);
  }

  /** All eight numbers and the three covariances of the sample are there. */
  ghost predicate Complete(s: Sample) {
    && Measures(s.intensity, s.varianceI) && Measures(s.polarization, s.varianceP)
    && Measures(s.null1, s.variance1) && Measures(s.null2, s.variance2)
    && s.c01.Val? && s.c02.Val? && s.c12.Val?
  }

  /** Pixel g of the merged product, read as a sample. */
  ghost function SampleAt(r: Merged, g: nat): Sample
    requires g < |r.intensity.values| && g < |r.intensity.variances| && g < |r.polarization.values|
    requires g < |r.polarization.variances| && g < |r.null1.values| && g < |r.null1.variances|
    requires g < |r.null2.values| && g < |r.null2.variances| && g < |r.c01| && g < |r.c02| && g < |r.c12|
  {
    Sample(r.polarization.values[g], r.null1.values[g], r.null2.values[g], r.intensity.values[g],
           r.polarization.variances[g], r.null1.variances[g], r.null2.variances[g], r.intensity.variances[g],
           r.c01[g], r.c02[g], r.c12[g])
  }

  /** A pixel that a single order covers, with a positive blaze and a complete sample, is merged into that very sample and
      keeps its quality word. */
  lemma {:induction false} AloneIsKept(r: Merged, orders: seq<OrderProduct>, grid: seq<real>, starts: seq<int>, i: int, g: nat)
    requires Placed(orders, grid, starts) && IsMerge(r, orders, starts, |grid|) && g < |grid|
    requires 0 <= i < |orders| && Alone(orders, starts, i, g) && orders[i].blaze[g - starts[i]] > 0.0
    requires Complete(orders[i].samples[g - starts[i]])
    ensures SampleAt(r, g) == orders[i].samples[g - starts[i]] && r.dq[g] == orders[i].dq[g - starts[i]]
  {
    AloneFields(r, orders, grid, starts, i, g);
    AlonePairs(r, orders, grid, starts, i, g);
    AloneQuality(orders, starts, i, g);
  }

  lemma {:induction false} AloneFields(r: Merged, orders: seq<OrderProduct>, grid: seq<real>, starts: seq<int>, i: int, g: nat)
    requires Placed(orders, grid, starts) && IsMerge(r, orders, starts, |grid|) && g < |grid|
    requires 0 <= i < |orders| && Alone(orders, starts, i, g) && orders[i].blaze[g - starts[i]] > 0.0
    requires Complete(orders[i].samples[g - starts[i]])
    ensures var s := orders[i].samples[g - starts[i]];
      && r.intensity.values[g] == s.intensity && r.intensity.variances[g] == s.varianceI
      && r.polarization.values[g] == s.polarization && r.polarization.variances[g] == s.varianceP
      && r.null1.values[g] == s.null1 && r.null1.variances[g] == s.variance1
      && r.null2.values[g] == s.null2 && r.null2.variances[g] == s.variance2
  {
    AloneField(orders, starts, i, g, Intensity);
    AloneField(orders, starts, i, g, Polarization);
    AloneField(orders, starts, i, g, Null1);
    AloneField(orders, starts, i, g, Null2);
  }

  lemma {:induction false} AlonePairs(r: Merged, orders: seq<OrderProduct>, grid: seq<real>, starts: seq<int>, i: int, g: nat)
    requires Placed(orders, grid, starts) && IsMerge(r, orders, starts, |grid|) && g < |grid|
    requires 0 <= i < |orders| && Alone(orders, starts, i, g) && orders[i].blaze[g - starts[i]] > 0.0
    requires Complete(orders[i].samples[g - starts[i]])
    ensures var s := orders[i].samples[g - starts[i]];
      r.c01[g] == s.c01 && r.c02[g] == s.c02 && r.c12[g] == s.c12
  {
    AlonePair(orders, starts, i, g, P1);
    AlonePair(orders, starts, i, g, P2);
    AlonePair(orders, starts, i, g, N12);
  }

  lemma {:induction false} AloneQuality(orders: seq<OrderProduct>, starts: seq<int>, i: int, g: int)
    requires AllShaped(orders) && |starts| == |orders| && 0 <= i < |orders| && Alone(orders, starts, i, g)
    requires orders[i].samples[g - starts[i]].intensity.Val?
    ensures MergedQuality(Column(orders, starts, Intensity, g), QualityColumn(orders, starts, g)) == orders[i].dq[g - starts[i]]
  {
    var cells, dqs := Column(orders, starts, Intensity, g), QualityColumn(orders, starts, g);
    assert cells[i].value.Val?;
    forall bit
      ensures bit in MergedQuality(cells, dqs) <==> bit in dqs[i]
    {
      MergedQualityIff(cells, dqs, bit);
    }
  }
}
