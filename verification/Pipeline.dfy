/** Resampling, demodulation and merge together: from source samples to merged pixels. */
module Pipeline {
  import opened Numeric
  import Resample
  import Fidelity
  import Bins
  import opened Demodulation
  import opened DemodulationGroup
  import opened ErrorPropagation
  import opened DemodulatedProduct
  import Merge
  import MergeOrders
  import MergedProduct

  /** The order carries the product of demodulating these exposures. */
  ghost predicate Reduces(order: Merge.OrderProduct, exposures: seq<Spectrum>, model: SignModel, roots: int -> Roots,
                          threshold: real)
    requires (forall x :: x in exposures ==> x.Shaped()) && model.HasSigns() && forall i :: roots(i).Positive()
  {
    && order.Shaped()
    && DemodulateGroup(exposures, model, roots, threshold) == Accepted(Product(order.wavelength, order.samples, order.dq))
  }

  lemma {:induction false} PolarizedHasIntensity(order: Merge.OrderProduct, exposures: seq<Spectrum>, model: SignModel,
                                                 roots: int -> Roots, threshold: real, j: nat)
    requires (forall x :: x in exposures ==> x.Shaped()) && model.HasSigns() && forall i :: roots(i).Positive()
    requires Reduces(order, exposures, model, roots, threshold) && j < |order.samples|
    requires order.samples[j].polarization.Val?
    ensures order.samples[j].intensity.Val?
  {
    PolarizationIff(Column(InOrder(exposures), j), model, roots(j));
  }

  /** Resampling hands a flag of a used sample to the target bin, and demodulation to the sample of the order. */
  lemma {:induction false} FlagReachesOrder(
      source: Resample.Source, te: seq<real>, resampled: Resample.Resampled, i: nat, j: nat, bit: nat,
      exposures: seq<Spectrum>, x: Spectrum, partner: Quality, model: SignModel, roots: int -> Roots, threshold: real,
      order: Merge.OrderProduct)
    requires source.WellFormed() && Bins.Grids(source.edges, te) && Resample.IsResampled(resampled, source, te) && j + 1 < |te|
    requires i < source.Size() && source.Used(Resample.WeightRow(source.edges, te, j), i) && bit in source.dq[i]
    requires (forall y :: y in exposures ==> y.Shaped()) && model.HasSigns() && forall k :: roots(k).Positive()
    requires Reduces(order, exposures, model, roots, threshold)
    requires x in exposures && j < |x.beams| && x.beams[j].dq == resampled.dq[j] + partner
    ensures j < |order.dq| && bit in order.dq[j]
  {
    var row := Resample.WeightRow(source.edges, te, j);
    Fidelity.FlagsCarried(source, row, bit);
    QualityIsInherited(exposures, model, roots, threshold, x, j);
  }

  /** No contributing flag is lost: a flag of a source sample that a target bin uses appears in the merged pixel to
      which that bin's polarization contributes with positive weight. */
  lemma {:induction false} NoFlagIsLost(
      source: Resample.Source, te: seq<real>, resampled: Resample.Resampled, i: nat, j: nat, bit: nat,
      exposures: seq<Spectrum>, x: Spectrum, partner: Quality, model: SignModel, roots: int -> Roots, threshold: real,
      orders: seq<Merge.OrderProduct>, o: nat, grid: seq<real>, starts: seq<int>, merged: MergeOrders.Merged)
    requires source.WellFormed() && Bins.Grids(source.edges, te) && Resample.IsResampled(resampled, source, te) && j + 1 < |te|
    requires i < source.Size() && source.Used(Resample.WeightRow(source.edges, te, j), i) && bit in source.dq[i]
    requires (forall y :: y in exposures ==> y.Shaped()) && model.HasSigns() && forall k :: roots(k).Positive()
    requires x in exposures && j < |x.beams| && x.beams[j].dq == resampled.dq[j] + partner
    requires o < |orders| && Reduces(orders[o], exposures, model, roots, threshold)
    requires MergeOrders.Placed(orders, grid, starts) && MergeOrders.IsMergedQuality(merged.dq, orders, starts, |grid|)
    requires j < |orders[o].samples| && Merge.CellOf(orders[o].samples[j], Merge.Polarization,
        orders[o].blaze[j]).Weight() > 0.0
    ensures 0 <= starts[o] + j < |merged.dq| && bit in merged.dq[starts[o] + j]
  {
    FlagReachesOrder(source, te, resampled, i, j, bit, exposures, x, partner, model, roots, threshold, orders[o]);
    PolarizedHasIntensity(orders[o], exposures, model, roots, threshold, j);
    MergedProduct.MeasuredFlagsSurvive(merged.dq, orders, starts, |grid|, o, j, bit);
  }

  /** Exposures with non-negative variances give orders to which the error theorem of the merge applies. */
  lemma {:induction false} ReducedOrdersAreDemodulated(order: Merge.OrderProduct, exposures: seq<Spectrum>, model: SignModel,
                                                       roots: int -> Roots, threshold: real)
    requires (forall x :: x in exposures ==> x.Shaped()) && model.HasSigns() && forall i :: roots(i).Positive()
    requires Reduces(order, exposures, model, roots, threshold)
    requires forall x, j :: x in exposures && 0 <= j < |x.beams| ==> NonNegativeVariances([x.beams[j]])
    ensures MergedProduct.FromDemodulation(order, model)
  {
    forall j | 0 <= j < |order.samples|
      ensures MergedProduct.IsDemodulated(order.samples[j], model)
    {
      var ordered := InOrder(exposures);
      var column := Column(ordered, j);
      forall k | 0 <= k < 4
        ensures NonNegativeVariances([column[k]])
      {
        assert ordered[k] in exposures;
      }
      assert forall k :: 0 <= k < 4 ==> [column[k]][0] == column[k];
    }
  }
}
