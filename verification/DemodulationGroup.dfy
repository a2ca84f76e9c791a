/** Demodulation of a group of four exposures: validation, error propagation, quality and order independence. */
module DemodulationGroup {
  import opened Numeric
  import opened MergeCovariance
  import opened Demodulation

  // ---------------------------------------------------------------- one wavelength sample

  /** The positive fourth roots of the three signed products, exp(y) for the three mean signed log ratios y. */
  datatype Roots = Roots(science: real, null1: real, null2: real) {
    predicate Positive() { science > 0.0 && null1 > 0.0 && null2 > 0.0 }
  }

  ghost predicate RootsOf(roots: Roots, beams: seq<Beams>, model: SignModel)
    requires AllUsable(beams) && model.HasSigns()
  {
    && IsRoot(roots.science, beams, model.OutputScience())
    && IsRoot(roots.null1, beams, model.null1)
    && IsRoot(roots.null2, beams, model.null2)
  }

  predicate Usable(beams: seq<Beams>)
    requires |beams| == 4
  {
    beams[0].Usable() && beams[1].Usable() && beams[2].Usable() && beams[3].Usable()
  }

  predicate HasVariances(beams: seq<Beams>)
    requires |beams| == 4 && Usable(beams)
  {
    && beams[0].LogVariance().Val? && beams[1].LogVariance().Val?
    && beams[2].LogVariance().Val? && beams[3].LogVariance().Val?
  }

  function LogVariances(beams: seq<Beams>): (v: seq<real>)
    requires |beams| == 4 && Usable(beams) && HasVariances(beams)
    ensures |v| == 4
  {
    [beams[0].LogVariance().v, beams[1].LogVariance().v, beams[2].LogVariance().v, beams[3].LogVariance().v]
  }

  /** Derivative of tanh(y / 2), in terms of its value. */
  function Derivative(r: real): real { 0.5 * (1.0 - r * r) }

  /** Covariance of two mean signed log ratios of independent sub-exposures. */
  function LogCovariance(v: seq<real>, f: seq<int>, g: seq<int>): real
    requires |v| == 4 && |f| == 4 && |g| == 4
  {
    (v[0] * (f[0] * g[0]) as real + v[1] * (f[1] * g[1]) as real
     + v[2] * (f[2] * g[2]) as real + v[3] * (f[3] * g[3]) as real) / 16.0
  }

  /** The products of one sample. */
  datatype Sample = Sample(
    polarization: Num, null1: Num, null2: Num, intensity: Num,
    varianceP: Num, variance1: Num, variance2: Num, varianceI: Num,
    c01: Num, c02: Num, c12: Num)

  function BeamSum(b: Beams): Num { if b.o.Val? && b.e.Val? then Val(b.o.v + b.e.v) else Missing }

  function BeamVarianceOr0(b: Beams): real { if b.vo.Val? && b.ve.Val? then b.vo.v + b.ve.v else 0.0 }

  predicate HasIntensity(beams: seq<Beams>)
    requires |beams| == 4
  {
    BeamSum(beams[0]).Val? && BeamSum(beams[1]).Val? && BeamSum(beams[2]).Val? && BeamSum(beams[3]).Val?
  }

  function Intensity(beams: seq<Beams>): Num
    requires |beams| == 4
  {
    if HasIntensity(beams) then
      Val((BeamSum(beams[0]).v + BeamSum(beams[1]).v + BeamSum(beams[2]).v + BeamSum(beams[3]).v) / 4.0)
    else Missing
  }

  /** A non-finite beam variance is left out of the sum rather than making the result non-finite. */
  function IntensityVariance(beams: seq<Beams>): Num
    requires |beams| == 4
  {
    if HasIntensity(beams) then
      Squared((BeamVarianceOr0(beams[0]) + BeamVarianceOr0(beams[1])
               + BeamVarianceOr0(beams[2]) + BeamVarianceOr0(beams[3])) / 16.0)
    else Missing
  }

  /** The square of the square root: a negative number has none. */
  function Squared(x: real): Num { if x >= 0.0 then Val(x) else Missing }

  /** Slope of tanh(y / 2) where exp(y) is the root. */
  function Slope(root: real): real
    requires root > 0.0
  {
    Derivative(Combination(root))
  }

  /** First-order error propagation of the log covariances through the three slopes. */
  function ErrorMatrix(v: seq<real>, f: seq<int>, g: seq<int>, h: seq<int>, d0: real, d1: real, d2: real): Matrix3
    requires |v| == 4 && |f| == 4 && |g| == 4 && |h| == 4
  {
    Matrix3(d0 * d0 * LogCovariance(v, f, f), d1 * d1 * LogCovariance(v, g, g), d2 * d2 * LogCovariance(v, h, h),
            d0 * d1 * LogCovariance(v, f, g), d0 * d2 * LogCovariance(v, f, h), d1 * d2 * LogCovariance(v, g, h))
  }

  function SampleErrors(beams: seq<Beams>, model: SignModel, roots: Roots): Matrix3
    requires |beams| == 4 && model.HasSigns() && roots.Positive() && Usable(beams) && HasVariances(beams)
  {
    ErrorMatrix(LogVariances(beams), model.OutputScience(), model.null1, model.null2,
                Slope(roots.science), Slope(roots.null1), Slope(roots.null2))
  }

  function Demodulated(beams: seq<Beams>, model: SignModel, roots: Roots): Sample
    requires |beams| == 4 && model.HasSigns() && roots.Positive()
  {
    var intensity, varianceI := Intensity(beams), IntensityVariance(beams);
    if Usable(beams) then
      var p, n1, n2 := Combination(roots.science), Combination(roots.null1), Combination(roots.null2);
      if HasVariances(beams) then
        var m := SampleErrors(beams, model, roots);
        Sample(Val(p), Val(n1), Val(n2), intensity, Squared(m.v0), Squared(m.v1), Squared(m.v2), varianceI,
               Val(m.c01), Val(m.c02), Val(m.c12))
      else
        Sample(Val(p), Val(n1), Val(n2), intensity, Missing, Missing, Missing, varianceI, Missing, Missing, Missing)
    else
      Sample(Missing, Missing, Missing, intensity, Missing, Missing, Missing, varianceI, Missing, Missing, Missing)
  }

  /** A polarization is reported exactly when all eight beams are finite and positive, and then so is an intensity. */
  lemma {:induction false} PolarizationIff(beams: seq<Beams>, model: SignModel, roots: Roots)
    requires |beams| == 4 && model.HasSigns() && roots.Positive()
    ensures Demodulated(beams, model, roots).polarization.Val? <==> AllUsable(beams)
    ensures Demodulated(beams, model, roots).polarization.Val? ==> Demodulated(beams, model, roots).intensity.Val?
  {
    assert Usable(beams) <==> AllUsable(beams);
  }

  // ------------------------------------------------------------------- exact recovery

  /** Noise-free beams of one polarized source are demodulated exactly, and both null checks vanish, whatever the
      gains of the beams and the throughput of each exposure. */
  lemma {:induction false} DemodulationIsExact(beams: seq<Beams>, a: real, b: real, t: seq<real>, intensity: real,
                                               model: SignModel, p: real, roots: Roots)
    requires model.Orthogonal() && ObservedGroup(beams, a, b, t, intensity, model.science, p)
    requires AllUsable(beams) && RootsOf(roots, beams, model)
    ensures Demodulated(beams, model, roots).polarization == Val(model.outputSign as real * p)
    ensures Demodulated(beams, model, roots).null1 == Val(0.0)
    ensures Demodulated(beams, model, roots).null2 == Val(0.0)
  {
    ScienceIsExact(beams, a, b, t, intensity, model, p, roots.science);
    NullIsZero(beams, a, b, t, intensity, model.science, p, model.null1, roots.null1);
    NullIsZero(beams, a, b, t, intensity, model.science, p, model.null2, roots.null2);
  }

  /** The roots of a noise-free group: the contrast to the output sign, and 1 for both null checks. */
  function ObservedRoots(model: SignModel, p: real): Roots
    requires -1.0 < p < 1.0
  {
    Roots(if model.outputSign == 1 then Contrast(p) else Contrast(-p), 1.0, 1.0)
  }

  lemma {:induction false} NullRoot(beams: seq<Beams>, a: real, b: real, t: seq<real>, intensity: real, modulation: seq<int>, p: real,
                                    signs: seq<int>)
    requires ObservedGroup(beams, a, b, t, intensity, modulation, p) && IsVector(signs)
    requires Total(signs) == 0 && Dot(modulation, signs) == 0
    ensures AllUsable(beams) && IsRoot(1.0, beams, signs)
  {
    GainAndContrast(beams, a, b, t, intensity, modulation, p, signs);
    UnitFactor(PowInt(a / b, 0), PowInt(Contrast(p), 0));
    assert Fourth(1.0) == 1.0;
  }

  lemma {:induction false} ScienceRoot(beams: seq<Beams>, a: real, b: real, t: seq<real>, intensity: real, model: SignModel, p: real)
    requires model.Orthogonal() && ObservedGroup(beams, a, b, t, intensity, model.science, p)
    ensures AllUsable(beams) && IsRoot(ObservedRoots(model, p).science, beams, model.OutputScience())
  {
    OutputTotals(model);
    GainAndContrast(beams, a, b, t, intensity, model.science, p, model.OutputScience());
    UnitFactor(PowInt(a / b, 0), PowInt(Contrast(p), 4 * model.outputSign));
    FlippedContrast(p);
    FlippedContrast(-p);
    PowFour(ObservedRoots(model, p).science);
  }

  lemma {:induction false} RootsExist(beams: seq<Beams>, a: real, b: real, t: seq<real>, intensity: real, model: SignModel, p: real)
    requires model.Orthogonal() && ObservedGroup(beams, a, b, t, intensity, model.science, p)
    ensures AllUsable(beams) && RootsOf(ObservedRoots(model, p), beams, model)
  {
    ScienceRoot(beams, a, b, t, intensity, model, p);
    NullRoot(beams, a, b, t, intensity, model.science, p, model.null1);
    NullRoot(beams, a, b, t, intensity, model.science, p, model.null2);
  }

  ghost predicate Recovered(s: Sample, model: SignModel, p: real) {
    s.polarization == Val(model.outputSign as real * p) && s.null1 == Val(0.0) && s.null2 == Val(0.0)
  }

  /** Unconditionally: noise-free beams always have the roots that stand for the mean log ratios, and whichever roots are
      taken, the polarization is recovered and both null checks vanish. */
  lemma {:induction false} DemodulationRecovers(beams: seq<Beams>, a: real, b: real, t: seq<real>, intensity: real,
                                                model: SignModel, p: real)
    requires model.Orthogonal() && ObservedGroup(beams, a, b, t, intensity, model.science, p)
    ensures AllUsable(beams) && RootsOf(ObservedRoots(model, p), beams, model)
    ensures forall roots: Roots :: roots.Positive() && RootsOf(roots, beams, model) ==>
      Recovered(Demodulated(beams, model, roots), model, p)
  {
    RootsExist(beams, a, b, t, intensity, model, p);
    forall roots: Roots | roots.Positive() && RootsOf(roots, beams, model)
      ensures Recovered(Demodulated(beams, model, roots), model, p)
    {
      DemodulationIsExact(beams, a, b, t, intensity, model, p, roots);
    }
  }

  /** What the modulation adds to the four throughputs. */
  function Imbalance(signs: seq<int>, t: seq<real>): real
    requires |signs| == 4 && |t| == 4
  {
    signs[0] as real * t[0] + signs[1] as real * t[1] + signs[2] as real * t[2] + signs[3] as real * t[3]
  }

  /** The two beams of one exposure together: u without modulation, and the modulated part v. */
  function Received(t: real, u: real, s: int, v: real): real { t * u + s as real * t * v }

  lemma {:induction false} BeamSumOf(beam: Beams, a: real, b: real, t: real, intensity: real, s: int, p: real, u: real, v: real)
    requires Observed(beam, a, b, t, intensity, s, p) && u == (a + b) * intensity && v == (a - b) * intensity * p
    ensures BeamSum(beam) == Val(Received(t, u, s, v))
  {
    var x := s as real * p;
    assert a * t * intensity * (1.0 + x) == t * (a * intensity) + s as real * t * (a * intensity * p);
    assert b * t * intensity * (1.0 - x) == t * (b * intensity) - s as real * t * (b * intensity * p);
    assert u == a * intensity + b * intensity;
    assert v == a * intensity * p - b * intensity * p;
  }

  lemma {:induction false} GatherFour(u: real, v: real, t: seq<real>, s: seq<int>)
    requires |t| == 4 && |s| == 4
    ensures Received(t[0], u, s[0], v) + Received(t[1], u, s[1], v) + Received(t[2], u, s[2], v) + Received(t[3], u, s[3], v)
         == (t[0] + t[1] + t[2] + t[3]) * u + Imbalance(s, t) * v
  {
    var c0, c1, c2, c3 := s[0] as real * t[0], s[1] as real * t[1], s[2] as real * t[2], s[3] as real * t[3];
    assert (c0 + c1 + c2 + c3) * v == c0 * v + c1 * v + c2 * v + c3 * v;
  }

  /** The mean over the exposures of what they receive without modulation, and of the modulated part. */
  function MeanPlain(t: seq<real>, u: real): real
    requires |t| == 4
  {
    (t[0] + t[1] + t[2] + t[3]) * u / 4.0
  }

  function MeanModulated(signs: seq<int>, t: seq<real>, v: real): real
    requires |signs| == 4 && |t| == 4
  {
    Imbalance(signs, t) * v / 4.0
  }

  lemma {:induction false} IntensityBy(beams: seq<Beams>, t: seq<real>, signs: seq<int>, u: real, v: real)
    requires |beams| == 4 && |t| == 4 && |signs| == 4
    requires forall k :: 0 <= k < 4 ==> BeamSum(beams[k]) == Val(Received(t[k], u, signs[k], v))
    ensures Intensity(beams) == Val(MeanPlain(t, u) + MeanModulated(signs, t, v))
  {
    GatherFour(u, v, t, signs);
  }

  /** The intensity is the mean throughput times summed beam gains and source intensity, plus what the modulation does not
      cancel: imbalance of the throughputs, difference of the beam gains and polarization together. */
  lemma {:induction false} IntensityIs(beams: seq<Beams>, a: real, b: real, t: seq<real>, intensity: real,
                                       signs: seq<int>, p: real)
    requires ObservedGroup(beams, a, b, t, intensity, signs, p)
    ensures Intensity(beams) == Val(MeanPlain(t, (a + b) * intensity) + MeanModulated(signs, t, (a - b) * intensity * p))
  {
    var u, v := (a + b) * intensity, (a - b) * intensity * p;
    forall k | 0 <= k < 4
      ensures BeamSum(beams[k]) == Val(Received(t[k], u, signs[k], v))
    {
      assert ObservedAt(beams, a, b, t, intensity, signs, p, k);
      BeamSumOf(beams[k], a, b, t[k], intensity, signs[k], p, u, v);
    }
    IntensityBy(beams, t, signs, u, v);
  }

  lemma {:induction false} NonZeroProduct(a: real, b: real)
    requires a != 0.0 && b != 0.0
    ensures a * b != 0.0
  {}

  lemma {:induction false} ModulatedVanishes(signs: seq<int>, t: seq<real>, d: real, intensity: real, p: real)
    requires |signs| == 4 && |t| == 4 && intensity > 0.0
    ensures MeanModulated(signs, t, d * intensity * p) == 0.0 <==> Imbalance(signs, t) == 0.0 || d == 0.0 || p == 0.0
  {
    var i := Imbalance(signs, t);
    if i != 0.0 && d != 0.0 && p != 0.0 {
      NonZeroProduct(d, intensity);
      NonZeroProduct(d * intensity, p);
      NonZeroProduct(i, d * intensity * p);
    }
  }

  lemma {:induction false} BalancedThroughputs(signs: seq<int>, t: seq<real>)
    requires |signs| == 4 && |t| == 4 && t[0] == t[1] == t[2] == t[3] && Total(signs) == 0
    ensures Imbalance(signs, t) == 0.0
  {
    assert (signs[0] as real + signs[1] as real + signs[2] as real + signs[3] as real) * t[0] == 0.0;
  }

  /** The polarization does not reach the intensity exactly when the throughputs are balanced against the modulation, the
      beams have equal gains, or the light is unpolarized. Balanced signs alone are enough for equal throughputs. */
  lemma {:induction false} IntensityIsUnmodulatedIff(beams: seq<Beams>, a: real, b: real, t: seq<real>, intensity: real,
                                                     signs: seq<int>, p: real)
    requires ObservedGroup(beams, a, b, t, intensity, signs, p)
    ensures Intensity(beams) == Val(MeanPlain(t, (a + b) * intensity)) <==> Imbalance(signs, t) == 0.0 || a == b || p == 0.0
    ensures t[0] == t[1] == t[2] == t[3] && Total(signs) == 0 ==> Imbalance(signs, t) == 0.0
  {
    IntensityIs(beams, a, b, t, intensity, signs, p);
    ModulatedVanishes(signs, t, a - b, intensity, p);
    if t[0] == t[1] == t[2] == t[3] && Total(signs) == 0 {
      BalancedThroughputs(signs, t);
    }
  }

  function Pair(o: real, e: real): Beams { Beams(Val(o), Val(e), Missing, Missing, {}) }

  /** Half-polarized light through beams of gains 2 and 1, with the first exposure twice as bright as the others. */
  const UNEVEN: seq<Beams> := [Pair(6.0, 1.0), Pair(1.0, 1.5), Pair(1.0, 1.5), Pair(3.0, 0.5)]

  lemma {:induction false} UnevenIsObserved(beams: seq<Beams>, t: seq<real>, signs: seq<int>)
    requires beams == UNEVEN && t == [2.0, 1.0, 1.0, 1.0] && signs == [1, -1, -1, 1]
    ensures ObservedGroup(beams, 2.0, 1.0, t, 1.0, signs, 0.5)
  {
    assert ObservedAt(beams, 2.0, 1.0, t, 1.0, signs, 0.5, 0);
    assert ObservedAt(beams, 2.0, 1.0, t, 1.0, signs, 0.5, 1);
    assert ObservedAt(beams, 2.0, 1.0, t, 1.0, signs, 0.5, 2);
    assert ObservedAt(beams, 2.0, 1.0, t, 1.0, signs, 0.5, 3);
  }

  /** Although the signs are balanced, the intensity there is not that of the unmodulated light. */
  lemma {:induction false} UnevenIsModulated(beams: seq<Beams>, t: seq<real>, signs: seq<int>)
    requires beams == UNEVEN && t == [2.0, 1.0, 1.0, 1.0] && signs == [1, -1, -1, 1]
    ensures ObservedGroup(beams, 2.0, 1.0, t, 1.0, signs, 0.5) && Total(signs) == 0
    ensures Imbalance(signs, t) == 1.0 && Intensity(beams) != Val(MeanPlain(t, (2.0 + 1.0) * 1.0))
  {
    UnevenIsObserved(beams, t, signs);
    IntensityIsUnmodulatedIff(beams, 2.0, 1.0, t, 1.0, signs, 0.5);
  }
}
