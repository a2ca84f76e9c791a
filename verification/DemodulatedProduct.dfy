/** Demodulation of a group of four exposures: validation, ordering by sub-index, and the quality words. */
module DemodulatedProduct {
  import opened Numeric
  import opened Demodulation
  import opened DemodulationGroup
  import opened Sorting

  /** One exposure on the common grid: a wavelength and a pair of beams for every sample. */
  datatype Spectrum = Spectrum(wavelength: seq<real>, beams: seq<Beams>, subIndex: int, config: string) {
    predicate Shaped() { |beams| == |wavelength| }
  }

  datatype GroupError = NotFour | BadIndices | MixedConfiguration | MixedGrid

  datatype Outcome = Accepted(product: Product) | Rejected(error: GroupError)

  datatype Product = Product(wavelength: seq<real>, samples: seq<Sample>, dq: seq<Quality>)

  function Indices(exposures: seq<Spectrum>): set<int> { set x | x in exposures :: x.subIndex }

  predicate Numbered(exposures: seq<Spectrum>) { |exposures| == 4 && Indices(exposures) == {1, 2, 3, 4} }

  /** The exposure with the given sub-index. */
  function Pick(exposures: seq<Spectrum>, index: int): (r: Spectrum)
    requires exists x :: x in exposures && x.subIndex == index
    ensures r in exposures && r.subIndex == index
  {
    if exposures[0].subIndex == index then exposures[0] else Pick(exposures[1..], index)
  }

  /** The exposures in the order of their sub-indices. */
  function InOrder(exposures: seq<Spectrum>): (r: seq<Spectrum>)
    requires Numbered(exposures)
    ensures |r| == 4 && forall k :: 0 <= k < 4 ==> r[k] in exposures && r[k].subIndex == k + 1
  {
    [Pick(exposures, 1), Pick(exposures, 2), Pick(exposures, 3), Pick(exposures, 4)]
  }

  lemma {:induction false} PickIsUnique(exposures: seq<Spectrum>, x: Spectrum)
    requires Numbered(exposures) && x in exposures && 1 <= x.subIndex <= 4
    ensures x == InOrder(exposures)[x.subIndex - 1]
  {
    var y := InOrder(exposures)[x.subIndex - 1];
    var i: nat :| i < |exposures| && exposures[i] == x;
    var j: nat :| j < |exposures| && exposures[j] == y;
  }

  /** Column j of four spectra: the four pairs of beams at one wavelength. */
  function Column(spectra: seq<Spectrum>, j: nat): (r: seq<Beams>)
    requires |spectra| == 4 && forall k :: 0 <= k < 4 ==> j < |spectra[k].beams|
    ensures |r| == 4
  {
    [spectra[0].beams[j], spectra[1].beams[j], spectra[2].beams[j], spectra[3].beams[j]]
  }

  predicate SameConfiguration(spectra: seq<Spectrum>)
    requires |spectra| == 4
  {
    forall k :: 0 <= k < 4 ==> spectra[k].config == spectra[0].config
  }

  predicate SameGrid(spectra: seq<Spectrum>)
    requires |spectra| == 4
  {
    forall k :: 0 <= k < 4 ==> spectra[k].wavelength == spectra[0].wavelength
  }

  /** |value / sqrt(variance)| exceeds the threshold; a null without a positive finite variance scores zero. */
  predicate Excess(value: Num, variance: Num, threshold: real) {
    if value.Val? && variance.Val? && variance.v > 0.0 && threshold >= 0.0
    then value.v * value.v > threshold * threshold * variance.v
    else threshold < 0.0
  }

  function Inherited(beams: seq<Beams>): Quality
    requires |beams| == 4
  {
    beams[0].dq + beams[1].dq + beams[2].dq + beams[3].dq
  }

  function Flag(raised: bool, bit: nat): Quality { if raised then {bit} else {} }

  function SampleQuality(beams: seq<Beams>, sample: Sample, threshold: real): Quality
    requires |beams| == 4
  {
    Inherited(beams) + Flag(!Usable(beams), EXTRACTION_FAILED)
    + Flag(Excess(sample.null1, sample.variance1, threshold), NULL1_EXCESS)
    + Flag(Excess(sample.null2, sample.variance2, threshold), NULL2_EXCESS)
  }

  function SampleOf(spectra: seq<Spectrum>, model: SignModel, roots: int -> Roots, j: nat): Sample
    requires |spectra| == 4 && (forall k :: 0 <= k < 4 ==> j < |spectra[k].beams|)
    requires model.HasSigns() && forall i :: roots(i).Positive()
  {
    Demodulated(Column(spectra, j), model, roots(j))
  }

  function QualityOf(spectra: seq<Spectrum>, model: SignModel, roots: int -> Roots, threshold: real, j: nat): Quality
    requires |spectra| == 4 && (forall k :: 0 <= k < 4 ==> j < |spectra[k].beams|)
    requires model.HasSigns() && forall i :: roots(i).Positive()
  {
    SampleQuality(Column(spectra, j), SampleOf(spectra, model, roots, j), threshold)
  }

  ghost predicate Aligned(spectra: seq<Spectrum>, n: nat) {
    |spectra| == 4 && forall k :: 0 <= k < 4 ==> |spectra[k].beams| == n
  }

  ghost function ProductOf(spectra: seq<Spectrum>, model: SignModel, roots: int -> Roots, threshold: real): Product
    requires |spectra| == 4 && Aligned(spectra, |spectra[0].wavelength|)
    requires model.HasSigns() && forall i :: roots(i).Positive()
  {
    var n := |spectra[0].wavelength|;
    Product(spectra[0].wavelength,
            seq(n, j requires 0 <= j < n => SampleOf(spectra, model, roots, j)),
            seq(n, j requires 0 <= j < n => QualityOf(spectra, model, roots, threshold, j)))
  }

  /** Four exposures numbered 1 to 4, of one configuration and on one grid. */
  ghost predicate Acceptable(exposures: seq<Spectrum>) {
    Numbered(exposures) && SameConfiguration(InOrder(exposures)) && SameGrid(InOrder(exposures))
  }

  lemma {:induction false} OrderedIsAligned(exposures: seq<Spectrum>)
    requires (forall x :: x in exposures ==> x.Shaped()) && Numbered(exposures) && SameGrid(InOrder(exposures))
    ensures Aligned(InOrder(exposures), |InOrder(exposures)[0].wavelength|)
  {
    forall k | 0 <= k < 4
      ensures |InOrder(exposures)[k].beams| == |InOrder(exposures)[0].wavelength|
    {
      assert InOrder(exposures)[k].Shaped();
    }
  }

  ghost function DemodulateGroup(exposures: seq<Spectrum>, model: SignModel, roots: int -> Roots, threshold: real): Outcome
    requires forall x :: x in exposures ==> x.Shaped()
    requires model.HasSigns() && forall i :: roots(i).Positive()
  {
    if |exposures| != 4 then Rejected(NotFour)
    else if Indices(exposures) != {1, 2, 3, 4} then Rejected(BadIndices)
    else if !SameConfiguration(InOrder(exposures)) then Rejected(MixedConfiguration)
    else if !SameGrid(InOrder(exposures)) then Rejected(MixedGrid)
    else
      OrderedIsAligned(exposures);
      Accepted(ProductOf(InOrder(exposures), model, roots, threshold))
  }

  // -------------------------------------------------------------------- computation

  /** Raises the bit wherever the null exceeds the threshold; the guard on the maximum changes nothing. */
  method MarkExcess(dq: array<Quality>, values: seq<Num>, variances: seq<Num>, threshold: real, bit: nat)
    requires |values| == dq.Length && |variances| == dq.Length
    modifies dq
    ensures forall j :: 0 <= j < dq.Length ==>
      dq[j] == old(dq[j]) + Flag(Excess(values[j], variances[j], threshold), bit)
  {
    var any := false;
    var i := 0;
    while i < dq.Length
      invariant 0 <= i <= dq.Length
      invariant any <==> exists j :: 0 <= j < i && Excess(values[j], variances[j], threshold)
    {
      any := any || Excess(values[i], variances[i], threshold);
      i := i + 1;
    }
    if any {
      i := 0;
      while i < dq.Length
        invariant 0 <= i <= dq.Length
        invariant forall j :: 0 <= j < i ==>
          dq[j] == old(dq[j]) + Flag(Excess(values[j], variances[j], threshold), bit)
        invariant forall j :: i <= j < dq.Length ==> dq[j] == old(dq[j])
      {
        if Excess(values[i], variances[i], threshold) {
          dq[i] := dq[i] + {bit};
        }
        i := i + 1;
      }
    }
  }

  /** The union of the four quality words, marked where any beam is not positive and finite. */
  method InheritQuality(spectra: seq<Spectrum>, n: nat) returns (dq: array<Quality>)
    requires Aligned(spectra, n)
    ensures fresh(dq) && dq.Length == n
    ensures forall j :: 0 <= j < n ==>
      dq[j] == Inherited(Column(spectra, j)) + Flag(!Usable(Column(spectra, j)), EXTRACTION_FAILED)
  {
    dq := new Quality[n];
    for j := 0 to n
      invariant forall i :: 0 <= i < j ==>
        dq[i] == Inherited(Column(spectra, i)) + Flag(!Usable(Column(spectra, i)), EXTRACTION_FAILED)
    {
      dq[j] := Inherited(Column(spectra, j));
      if !Usable(Column(spectra, j)) {
        dq[j] := dq[j] + {EXTRACTION_FAILED};
      }
    }
  }

  method Samples(spectra: seq<Spectrum>, model: SignModel, roots: int -> Roots, n: nat)
    returns (samples: seq<Sample>, null1: seq<Num>, variance1: seq<Num>, null2: seq<Num>, variance2: seq<Num>)
    requires Aligned(spectra, n) && model.HasSigns() && forall i :: roots(i).Positive()
    ensures |samples| == |null1| == |variance1| == |null2| == |variance2| == n
    ensures forall j :: 0 <= j < n ==> samples[j] == SampleOf(spectra, model, roots, j)
    ensures forall j :: 0 <= j < n ==> null1[j] == samples[j].null1 && variance1[j] == samples[j].variance1
    ensures forall j :: 0 <= j < n ==> null2[j] == samples[j].null2 && variance2[j] == samples[j].variance2
  {
    samples, null1, variance1, null2, variance2 := [], [], [], [], [];
    for j := 0 to n
      invariant |samples| == |null1| == |variance1| == |null2| == |variance2| == j
      invariant forall i :: 0 <= i < j ==> samples[i] == SampleOf(spectra, model, roots, i)
      invariant forall i :: 0 <= i < j ==> null1[i] == samples[i].null1 && variance1[i] == samples[i].variance1
      invariant forall i :: 0 <= i < j ==> null2[i] == samples[i].null2 && variance2[i] == samples[i].variance2
    {
      var s := SampleOf(spectra, model, roots, j);
      samples := samples + [s];
      null1, variance1 := null1 + [s.null1], variance1 + [s.variance1];
      null2, variance2 := null2 + [s.null2], variance2 + [s.variance2];
    }
  }

  method Demodulate(exposures: seq<Spectrum>, model: SignModel, roots: int -> Roots, threshold: real) returns (r: Outcome)
    requires forall x :: x in exposures ==> x.Shaped()
    requires model.HasSigns() && forall i :: roots(i).Positive()
    ensures r == DemodulateGroup(exposures, model, roots, threshold)
  {
    if |exposures| != 4 {
      return Rejected(NotFour);
    }
    if Indices(exposures) != {1, 2, 3, 4} {
      return Rejected(BadIndices);
    }
    var ordered := InOrder(exposures);
    if !SameConfiguration(ordered) {
      return Rejected(MixedConfiguration);
    }
    if !SameGrid(ordered) {
      return Rejected(MixedGrid);
    }
    var n := |ordered[0].wavelength|;
    OrderedIsAligned(exposures);
    var samples, null1, variance1, null2, variance2 := Samples(ordered, model, roots, n);
    var dq := InheritQuality(ordered, n);
    MarkExcess(dq, null1, variance1, threshold, NULL1_EXCESS);
    MarkExcess(dq, null2, variance2, threshold, NULL2_EXCESS);
    r := Accepted(Product(ordered[0].wavelength, samples, dq[..]));
    assert samples == ProductOf(ordered, model, roots, threshold).samples;
    forall j | 0 <= j < n
      ensures dq[j] == QualityOf(ordered, model, roots, threshold, j)
    {}
    assert dq[..] == ProductOf(ordered, model, roots, threshold).dq;
  }

  // ---------------------------------------------------------------------- properties

  /** The order in which the exposures are listed does not matter, to the product or to the error. */
  lemma {:induction false} OrderIndependent(listed: seq<Spectrum>, relisted: seq<Spectrum>, model: SignModel,
                                            roots: int -> Roots, threshold: real)
    requires multiset(listed) == multiset(relisted)
    requires (forall x :: x in listed ==> x.Shaped()) && (forall x :: x in relisted ==> x.Shaped())
    requires model.HasSigns() && forall i :: roots(i).Positive()
    ensures DemodulateGroup(listed, model, roots, threshold) == DemodulateGroup(relisted, model, roots, threshold)
  {
    SameMembers(listed, relisted);
    assert Indices(listed) == Indices(relisted);
    if Numbered(listed) {
      forall k | 0 <= k < 4
        ensures InOrder(listed)[k] == InOrder(relisted)[k]
      {
        PickIsUnique(relisted, InOrder(listed)[k]);
      }
      assert InOrder(listed) == InOrder(relisted);
    }
  }

  /** Column j comes from noise-free observations of a source with this polarization, in the order of the sub-indices. */
  ghost predicate ExactColumn(column: seq<Beams>, a: real, b: real, t: seq<real>, intensity: real, p: real,
                              model: SignModel, roots: Roots)
    requires model.HasSigns()
  {
    ObservedGroup(column, a, b, t, intensity, model.science, p) && AllUsable(column) && RootsOf(roots, column, model)
  }

  ghost predicate ExactSample(s: Sample, sign: int, p: real) {
    s.polarization == Val(sign as real * p) && s.null1 == Val(0.0) && s.null2 == Val(0.0)
  }

  lemma {:induction false} ColumnIsExact(column: seq<Beams>, a: real, b: real, t: seq<real>, intensity: real, p: real,
                                         model: SignModel, roots: Roots)
    requires model.Orthogonal() && roots.Positive() && |column| == 4
    requires ExactColumn(column, a, b, t, intensity, p, model, roots)
    ensures ExactSample(Demodulated(column, model, roots), model.outputSign, p)
  {
    DemodulationIsExact(column, a, b, t, intensity, model, p, roots);
  }

  lemma {:induction false} SamplesAreExact(spectra: seq<Spectrum>, model: SignModel, roots: int -> Roots, threshold: real,
                                           a: int -> real, b: int -> real, t: int -> seq<real>, intensity: int -> real, p: int -> real)
    requires |spectra| == 4 && Aligned(spectra, |spectra[0].wavelength|)
    requires model.Orthogonal() && forall i :: roots(i).Positive()
    requires forall j :: 0 <= j < |spectra[0].wavelength| ==>
      ExactColumn(Column(spectra, j), a(j), b(j), t(j), intensity(j), p(j), model, roots(j))
    ensures forall j :: 0 <= j < |spectra[0].wavelength| ==>
      ExactSample(ProductOf(spectra, model, roots, threshold).samples[j], model.outputSign, p(j))
  {
    forall j | 0 <= j < |spectra[0].wavelength|
      ensures ExactSample(ProductOf(spectra, model, roots, threshold).samples[j], model.outputSign, p(j))
    {
      ColumnIsExact(Column(spectra, j), a(j), b(j), t(j), intensity(j), p(j), model, roots(j));
    }
  }

  ghost predicate Indexed(exposures: seq<Spectrum>) {
    |exposures| == 4 && Has(exposures, 1) && Has(exposures, 2) && Has(exposures, 3) && Has(exposures, 4)
  }

  ghost predicate Has(exposures: seq<Spectrum>, index: int) { exists x :: x in exposures && x.subIndex == index }

  ghost predicate OneConfiguration(exposures: seq<Spectrum>) {
    forall x, y :: x in exposures && y in exposures ==> x.config == y.config
  }

  ghost predicate OneGrid(exposures: seq<Spectrum>) {
    forall x, y :: x in exposures && y in exposures ==> x.wavelength == y.wavelength
  }

  lemma {:induction false} NumberedIff(exposures: seq<Spectrum>)
    ensures Numbered(exposures) <==> Indexed(exposures)
  {
    if Numbered(exposures) {
      assert 1 in Indices(exposures) && 2 in Indices(exposures) && 3 in Indices(exposures) && 4 in Indices(exposures);
    }
    if Indexed(exposures) {
      var a :| a in exposures && a.subIndex == 1;
      var b :| b in exposures && b.subIndex == 2;
      var c :| c in exposures && c.subIndex == 3;
      var d :| d in exposures && d.subIndex == 4;
      FourExposures(exposures, a, b, c, d);
    }
  }

  lemma {:induction false} FourExposures(exposures: seq<Spectrum>, a: Spectrum, b: Spectrum, c: Spectrum, d: Spectrum)
    requires |exposures| == 4 && a in exposures && b in exposures && c in exposures && d in exposures
    requires a.subIndex == 1 && b.subIndex == 2 && c.subIndex == 3 && d.subIndex == 4
    ensures Indices(exposures) == {1, 2, 3, 4}
  {
    assert exposures == [exposures[0], exposures[1], exposures[2], exposures[3]];
    assert {1, 2, 3, 4} <= Indices(exposures);
  }

  lemma {:induction false} OrderedMembers(exposures: seq<Spectrum>, x: Spectrum)
    requires Numbered(exposures)
    ensures x in exposures <==> x in InOrder(exposures)
  {
    if x in exposures {
      assert x.subIndex in Indices(exposures);
      PickIsUnique(exposures, x);
    }
  }

  lemma {:induction false} SameIff(exposures: seq<Spectrum>)
    requires Numbered(exposures)
    ensures SameConfiguration(InOrder(exposures)) <==> OneConfiguration(exposures)
    ensures SameGrid(InOrder(exposures)) <==> OneGrid(exposures)
  {
    var ordered := InOrder(exposures);
    forall x | x in exposures
      ensures exists k :: 0 <= k < 4 && ordered[k] == x
    {
      OrderedMembers(exposures, x);
    }
  }

  ghost predicate RejectedFor(o: Outcome, error: GroupError) { o == Rejected(error) }

  /** Demodulation succeeds exactly on four exposures numbered 1 to 4 in any order, all of one configuration and on one grid,
      and otherwise fails with the first of the four conditions that is not met. */
  lemma {:induction false} AcceptedIff(exposures: seq<Spectrum>, model: SignModel, roots: int -> Roots, threshold: real)
    requires forall x :: x in exposures ==> x.Shaped()
    requires model.HasSigns() && forall i :: roots(i).Positive()
    ensures var o := DemodulateGroup(exposures, model, roots, threshold);
      && (o.Accepted? <==> Indexed(exposures) && OneConfiguration(exposures) && OneGrid(exposures))
      && (RejectedFor(o, NotFour) <==> |exposures| != 4)
      && (RejectedFor(o, BadIndices) <==> |exposures| == 4 && !Indexed(exposures))
      && (RejectedFor(o, MixedConfiguration) <==> Indexed(exposures) && !OneConfiguration(exposures))
      && (RejectedFor(o, MixedGrid) <==> Indexed(exposures) && OneConfiguration(exposures) && !OneGrid(exposures))
    ensures DemodulateGroup(exposures, model, roots, threshold).Accepted? <==> Acceptable(exposures)
  {
    NumberedIff(exposures);
    if Numbered(exposures) {
      SameIff(exposures);
    }
  }

  /** From noise-free exposures listed in any order, every polarization is recovered exactly and both nulls vanish. */
  lemma {:induction false} GroupIsExact(exposures: seq<Spectrum>, model: SignModel, roots: int -> Roots, threshold: real,
                                        a: int -> real, b: int -> real, t: int -> seq<real>, intensity: int -> real, p: int -> real)
    requires (forall x :: x in exposures ==> x.Shaped()) && Acceptable(exposures)
    requires model.Orthogonal() && forall i :: roots(i).Positive()
    requires Aligned(InOrder(exposures), |InOrder(exposures)[0].wavelength|)
    requires forall j :: 0 <= j < |InOrder(exposures)[0].wavelength| ==>
      ExactColumn(Column(InOrder(exposures), j), a(j), b(j), t(j), intensity(j), p(j), model, roots(j))
    ensures DemodulateGroup(exposures, model, roots, threshold).Accepted?
    ensures forall j :: 0 <= j < |DemodulateGroup(exposures, model, roots, threshold).product.samples| ==>
      ExactSample(DemodulateGroup(exposures, model, roots, threshold).product.samples[j], model.outputSign, p(j))
  {
    SamplesAreExact(InOrder(exposures), model, roots, threshold, a, b, t, intensity, p);
  }

  /** No flag of any exposure is lost, and a sample is marked as failed unless it has a polarization. */
  lemma {:induction false} QualityIsInherited(exposures: seq<Spectrum>, model: SignModel, roots: int -> Roots, threshold: real,
                                              x: Spectrum, j: nat)
    requires (forall y :: y in exposures ==> y.Shaped()) && Acceptable(exposures)
    requires model.HasSigns() && forall i :: roots(i).Positive()
    requires x in exposures && j < |x.beams|
    ensures DemodulateGroup(exposures, model, roots, threshold).Accepted?
    ensures var product := DemodulateGroup(exposures, model, roots, threshold).product;
      && j < |product.dq| == |product.samples| == |product.wavelength|
      && x.beams[j].dq <= product.dq[j]
      && (product.samples[j].polarization == Missing ==> EXTRACTION_FAILED in product.dq[j])
  {
    var spectra := InOrder(exposures);
    assert x.subIndex in Indices(exposures);
    PickIsUnique(exposures, x);
    OrderedIsAligned(exposures);
    var column := Column(spectra, j);
    assert column[x.subIndex - 1] == x.beams[j];
    PolarizationIff(column, model, roots(j));
  }

  /** The excess test is a test of the score |value| / sigma; without a positive finite variance the score counts as zero. */
  lemma {:induction false} ExcessIff(value: real, variance: Num, threshold: real, sigma: real)
    requires variance.Val? && variance.v > 0.0 ==> sigma > 0.0 && sigma * sigma == variance.v
    ensures Excess(Val(value), variance, threshold) <==>
      (if variance.Val? && variance.v > 0.0 then Abs(value) / sigma else 0.0) > threshold
  {
    if variance.Val? && variance.v > 0.0 && threshold >= 0.0 {
      var z := Abs(value) / sigma;
      assert z * sigma == Abs(value);
      assert value * value == (z * z) * variance.v by {
        assert (z * sigma) * (z * sigma) == (z * z) * (sigma * sigma);
      }
      ScoreOrder(z, threshold, sigma, variance.v);
    } else if variance.Val? && variance.v > 0.0 {
      ScoreSign(value, sigma);
    }
  }

  lemma {:induction false} ScoreSign(value: real, sigma: real)
    requires sigma > 0.0
    ensures Abs(value) / sigma >= 0.0
  {}

  lemma {:induction false} ScoreOrder(z: real, threshold: real, sigma: real, v: real)
    requires sigma > 0.0 && v > 0.0 && threshold >= 0.0 && z * sigma >= 0.0
    ensures (z * z) * v > threshold * threshold * v <==> z > threshold
  {
    if z < 0.0 {
      PositiveProduct(-z, sigma, -z * sigma);
    }
    if z > threshold {
      PositiveProduct(z - threshold, z + threshold, (z - threshold) * (z + threshold));
      PositiveProduct(z * z - threshold * threshold, v, (z * z - threshold * threshold) * v);
    } else {
      ProductLe(z, threshold, z, threshold);
      ProductLe(z * z, threshold * threshold, v, v);
    }
  }

  /** A flag of sample j is one of some exposure, the failure mark of a sample without polarization, or the mark of a null
      whose own score exceeds the threshold. */
  lemma {:induction false} QualityIff(exposures: seq<Spectrum>, model: SignModel, roots: int -> Roots, threshold: real,
                                      j: nat, bit: nat)
    requires (forall y :: y in exposures ==> y.Shaped()) && Acceptable(exposures)
    requires model.HasSigns() && forall i :: roots(i).Positive()
    requires j < |InOrder(exposures)[0].wavelength|
    ensures var product := DemodulateGroup(exposures, model, roots, threshold).product;
      && j < |product.samples| == |product.dq|
      && (bit in product.dq[j] <==>
            || (exists x :: x in exposures && j < |x.beams| && bit in x.beams[j].dq)
            || (bit == EXTRACTION_FAILED && product.samples[j].polarization == Missing)
            || (bit == NULL1_EXCESS && Excess(product.samples[j].null1, product.samples[j].variance1, threshold))
            || (bit == NULL2_EXCESS && Excess(product.samples[j].null2, product.samples[j].variance2, threshold)))
  {
    var spectra := InOrder(exposures);
    OrderedIsAligned(exposures);
    var column := Column(spectra, j);
    InheritedIff(exposures, j, bit);
    PolarizationIff(column, model, roots(j));
    assert Usable(column) <==> AllUsable(column);
  }

  lemma {:induction false} InheritedIff(exposures: seq<Spectrum>, j: nat, bit: nat)
    requires Numbered(exposures) && forall k :: 0 <= k < 4 ==> j < |InOrder(exposures)[k].beams|
    ensures bit in Inherited(Column(InOrder(exposures), j)) <==>
      exists x :: x in exposures && j < |x.beams| && bit in x.beams[j].dq
  {
    var ordered := InOrder(exposures);
    if x :| x in exposures && j < |x.beams| && bit in x.beams[j].dq {
      OrderedMembers(exposures, x);
    }
  }
}
