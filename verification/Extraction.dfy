/** Optimal extraction of one spatial cut with at most one cosmic-ray rejection. */
module Extraction {
  import opened Numeric
  import opened Sorting
  import Combine

  /** A detector pixel of the cut: background-subtracted value, variance and its square root, quality, and spatial
      profile clipped at zero. */
  datatype Pixel = Pixel(value: Num, variance: Num, sigma: real, quality: Quality, profile: real) {
    predicate Usable() {
      && value.Val? && variance.Val? && variance.v > 0.0 && profile > 0.0
      && SATURATED !in quality && BAD_PIXEL !in quality
    }

    ghost predicate SigmaIsRoot() {
      Usable() ==> sigma > 0.0 && sigma * sigma == variance.v
    }
  }

  /** A usable pixel. */
  datatype Sample = Sample(p: real, x: real, v: real, sigma: real) {
    predicate Positive() { p > 0.0 && v > 0.0 && sigma > 0.0 }
  }

  ghost predicate Positive(s: seq<Sample>) { forall i :: 0 <= i < |s| ==> s[i].Positive() }

  function Usables(cut: seq<Pixel>): (s: seq<Sample>)
    requires forall i :: 0 <= i < |cut| ==> cut[i].SigmaIsRoot()
    ensures Positive(s)
  {
    if cut == [] then []
    else
      assert cut[0].SigmaIsRoot();
      var rest := Usables(cut[1..]);
      if cut[0].Usable() then [Sample(cut[0].profile, cut[0].value.v, cut[0].variance.v, cut[0].sigma)] + rest else rest
  }

  function AllQuality(cut: seq<Pixel>): Quality { if cut == [] then {} else cut[0].quality + AllQuality(cut[1..]) }

  // ------------------------------------------------------------------ optimal estimate

  function ProfileTerm(s: seq<Sample>, i: int): real { if 0 <= i < |s| then s[i].p else 0.0 }

  function GainTerm(s: seq<Sample>, i: int): real { if 0 <= i < |s| && s[i].v > 0.0 then s[i].p * s[i].p / s[i].v else 0.0 }

  function SignalTerm(s: seq<Sample>, i: int): real { if 0 <= i < |s| && s[i].v > 0.0 then s[i].p * s[i].x / s[i].v else 0.0 }

  ghost function ProfileTotal(s: seq<Sample>): real { Sum(0, |s|, i => ProfileTerm(s, i)) }

  ghost function Gain(s: seq<Sample>): real { Sum(0, |s|, i => GainTerm(s, i)) }

  ghost function Signal(s: seq<Sample>): real { Sum(0, |s|, i => SignalTerm(s, i)) }

  lemma {:induction false} GainTermSign(s: seq<Sample>, i: int)
    requires Positive(s) && 0 <= i < |s|
    ensures GainTerm(s, i) > 0.0 && GainTerm(s, i) * s[i].v == s[i].p * s[i].p
  {
    PositiveProduct(s[i].p, s[i].p, s[i].p * s[i].p);
    PositiveQuotient(s[i].p * s[i].p, s[i].v);
  }

  lemma {:induction false} PositiveQuotient(a: real, b: real)
    requires a > 0.0 && b > 0.0
    ensures a / b > 0.0 && (a / b) * b == a
  {
    var q := a / b;
    assert q * b == a;
  }

  lemma {:induction false} SumPositive(n: int, f: int -> real)
    requires n > 0 && forall i :: 0 <= i < n ==> f(i) > 0.0
    ensures Sum(0, n, f) > 0.0
  {
    SumNonNegative(0, n - 1, f);
  }

  lemma {:induction false} GainIsPositive(s: seq<Sample>)
    requires Positive(s) && s != []
    ensures Gain(s) > 0.0 && ProfileTotal(s) > 0.0
  {
    forall i | 0 <= i < |s|
      ensures GainTerm(s, i) > 0.0
    {
      GainTermSign(s, i);
    }
    SumPositive(|s|, i => GainTerm(s, i));
    SumPositive(|s|, i => ProfileTerm(s, i));
  }

  /** Minimum-variance estimate of the flux of which every sample holds the fraction p. */
  ghost function Estimate(s: seq<Sample>): real
    requires Positive(s) && s != []
  {
    GainIsPositive(s);
    Signal(s) / Gain(s)
  }

  ghost function EstimateVariance(s: seq<Sample>): real
    requires Positive(s) && s != []
  {
    GainIsPositive(s);
    1.0 / Gain(s)
  }

  ghost predicate ProfileTimes(s: seq<Sample>, flux: real) { forall i :: 0 <= i < |s| ==> Follows(s[i], flux) }

  ghost predicate Follows(s: Sample, flux: real) { s.x == Times(flux, s.p) }

  lemma {:induction false} SignalOfProfile(p: real, x: real, v: real, flux: real)
    requires v > 0.0 && x == Times(flux, p)
    ensures p * x / v == Times(flux, p * p / v)
  {
    var q := p * p / v;
    assert q * v == p * p;
    assert (flux * q) * v == p * x;
    DivisionIs(p * x, v, flux * q);
  }

  lemma {:induction false} DivisionIs(a: real, b: real, q: real)
    requires b != 0.0 && a == q * b
    ensures a / b == q
  {}

  /** Values that follow the profile are recovered exactly. */
  lemma {:induction false} EstimateIsExact(s: seq<Sample>, flux: real)
    requires Positive(s) && s != [] && ProfileTimes(s, flux)
    ensures Estimate(s) == flux
  {
    GainIsPositive(s);
    forall i | 0 <= i < |s|
      ensures SignalTerm(s, i) == Times(flux, GainTerm(s, i))
    {
      assert Follows(s[i], flux) && s[i].Positive();
      SignalOfProfile(s[i].p, s[i].x, s[i].v, flux);
    }
    SumTimes(|s|, flux, i => GainTerm(s, i), i => SignalTerm(s, i));
    DivisionIs(Signal(s), Gain(s), flux);
  }

  // ----------------------------------------------------------------- minimum variance

  /** Expectation factor and variance of the linear combination with weights u of independent samples. */
  ghost function Response(s: seq<Sample>, u: int -> real): real { Sum(0, |s|, i => Times(u(i), ProfileTerm(s, i))) }

  ghost function Combination(s: seq<Sample>, u: int -> real): real { Sum(0, |s|, i => Times(u(i), ValueTerm(s, i))) }

  ghost function CombinationVariance(s: seq<Sample>, u: int -> real): real { Sum(0, |s|, i => Quad(u(i), VarianceTerm(s, i))) }

  function ValueTerm(s: seq<Sample>, i: int): real { if 0 <= i < |s| then s[i].x else 0.0 }

  function VarianceTerm(s: seq<Sample>, i: int): real { if 0 <= i < |s| then s[i].v else 0.0 }

  lemma {:induction false} TermPsd(u: real, p: real, v: real, g: real)
    requires v > 0.0 && g > 0.0 && g * v == p * p
    ensures Psd2(Quad(u, v), g, Times(u, p))
  {
    var a := u * u;
    assert a >= 0.0;
    NonNegativeProduct(a, v, a * v);
    assert (u * p) * (u * p) == a * (p * p);
    assert (a * v) * g == a * (g * v);
  }

  /** No unbiased linear combination of the samples has a smaller variance than the reported one. */
  lemma {:induction false} VarianceIsMinimal(s: seq<Sample>, u: int -> real)
    requires Positive(s) && s != [] && Response(s, u) == 1.0
    ensures EstimateVariance(s) <= CombinationVariance(s, u)
  {
    GainIsPositive(s);
    var x := i => Quad(u(i), VarianceTerm(s, i));
    var z := i => Times(u(i), ProfileTerm(s, i));
    forall i | 0 <= i < |s|
      ensures Psd2(x(i), GainTerm(s, i), z(i))
    {
      GainTermSign(s, i);
      TermPsd(u(i), s[i].p, s[i].v, GainTerm(s, i));
    }
    SumPsd2(0, |s|, x, i => GainTerm(s, i), z);
    SumCongruence(0, |s|, x, i => Quad(u(i), VarianceTerm(s, i)));
    SumCongruence(0, |s|, z, i => Times(u(i), ProfileTerm(s, i)));
    InverseBound(CombinationVariance(s, u), Gain(s));
  }

  lemma {:induction false} InverseBound(x: real, y: real)
    requires y > 0.0 && x * y >= 1.0
    ensures 1.0 / y <= x
  {
    var q := 1.0 / y;
    assert q * y == 1.0;
    if x < q {
      PositiveProduct(q - x, y, (q - x) * y);
    }
  }

  /** The weights of the estimate. */
  ghost function OptimalWeight(s: seq<Sample>, i: int): real
    requires Positive(s) && s != []
  {
    GainIsPositive(s);
    if 0 <= i < |s| then s[i].p / s[i].v / Gain(s) else 0.0
  }

  lemma {:induction false} WeightTerms(p: real, x: real, v: real, d: real, u: real)
    requires v > 0.0 && d > 0.0 && u == p / v / d
    ensures Times(u, p) == Times(1.0 / d, p * p / v)
    ensures Times(u, x) == Times(1.0 / d, p * x / v)
    ensures Quad(u, v) == Times(1.0 / d, Times(u, p))
  {
    var w, e := p / v, 1.0 / d;
    assert w * v == p && e * d == 1.0;
    assert (e * w) * d == w;
    DivisionIs(w, d, e * w);
    DivisionIs(p * p, v, w * p);
    assert (w * p) * v == p * p;
    DivisionIs(p * x, v, w * x);
    assert (w * x) * v == p * x;
    assert u * v == e * p;
  }

  lemma {:induction false} OptimalTerms(s: seq<Sample>, i: int, d: real, u: real)
    requires Positive(s) && s != [] && 0 <= i < |s| && d == Gain(s) && u == OptimalWeight(s, i)
    ensures d > 0.0
    ensures Times(u, ProfileTerm(s, i)) == Times(1.0 / d, GainTerm(s, i))
    ensures Times(u, ValueTerm(s, i)) == Times(1.0 / d, SignalTerm(s, i))
    ensures Quad(u, VarianceTerm(s, i)) == Times(1.0 / d, Times(u, ProfileTerm(s, i)))
  {
    GainIsPositive(s);
    assert s[i].Positive();
    assert u == s[i].p / s[i].v / d;
    WeightTerms(s[i].p, s[i].x, s[i].v, d, u);
  }

  /** The bound is attained by the weights the estimate uses: they have unit response, their combination is the
      estimate, and their variance is the reported one. */
  lemma {:induction false} OptimumIsAttained(s: seq<Sample>, u: int -> real)
    requires Positive(s) && s != [] && forall i :: u(i) == OptimalWeight(s, i)
    ensures Response(s, u) == 1.0
    ensures Combination(s, u) == Estimate(s)
    ensures CombinationVariance(s, u) == EstimateVariance(s)
  {
    GainIsPositive(s);
    var d := Gain(s);
    var x := i => Times(u(i), ValueTerm(s, i));
    var y := i => Quad(u(i), VarianceTerm(s, i));
    var z := i => Times(u(i), ProfileTerm(s, i));
    forall i | 0 <= i < |s|
      ensures z(i) == Times(1.0 / d, GainTerm(s, i))
      ensures x(i) == Times(1.0 / d, SignalTerm(s, i))
      ensures y(i) == Times(1.0 / d, z(i))
    {
      OptimalTerms(s, i, d, u(i));
    }
    SumTimes(|s|, 1.0 / d, i => GainTerm(s, i), z);
    SumTimes(|s|, 1.0 / d, i => SignalTerm(s, i), x);
    SumTimes(|s|, 1.0 / d, z, y);
    SumCongruence(0, |s|, z, i => Times(u(i), ProfileTerm(s, i)));
    SumCongruence(0, |s|, x, i => Times(u(i), ValueTerm(s, i)));
    SumCongruence(0, |s|, y, i => Quad(u(i), VarianceTerm(s, i)));
    ScaledByInverse(d, Signal(s));
  }

  lemma {:induction false} ScaledByInverse(d: real, n: real)
    requires d > 0.0
    ensures Times(1.0 / d, d) == 1.0 && Times(1.0 / d, n) == n / d
  {
    var e := 1.0 / d;
    assert e * d == 1.0;
    assert (e * n) * d == n;
    DivisionIs(n, d, e * n);
  }

  // ------------------------------------------------------------------ cosmic rejection

  /** The profile renormalised to sum to one. */
  ghost function Normalised(s: seq<Sample>): (r: seq<Sample>)
    requires Positive(s) && s != []
    ensures |r| == |s| && Positive(r)
  {
    GainIsPositive(s);
    NormalisedIsPositive(s);
    seq(|s|, i requires 0 <= i < |s| => Scaled(s[i], ProfileTotal(s)))
  }

  function Scaled(s: Sample, total: real): Sample
    requires total > 0.0
  {
    Sample(s.p / total, s.x, s.v, s.sigma)
  }

  lemma {:induction false} NormalisedIsPositive(s: seq<Sample>)
    requires Positive(s) && s != [] && ProfileTotal(s) > 0.0
    ensures forall i :: 0 <= i < |s| ==> Scaled(s[i], ProfileTotal(s)).Positive()
  {
    forall i | 0 <= i < |s|
      ensures Scaled(s[i], ProfileTotal(s)).Positive()
    {
      PositiveQuotient(s[i].p, ProfileTotal(s));
    }
  }

  lemma {:induction false} NormalisedTotal(s: seq<Sample>)
    requires Positive(s) && s != []
    ensures ProfileTotal(Normalised(s)) == 1.0
  {
    GainIsPositive(s);
    var t, r := ProfileTotal(s), Normalised(s);
    forall i | 0 <= i < |s|
      ensures ProfileTerm(r, i) == Times(1.0 / t, ProfileTerm(s, i))
    {
      ScaledByInverse(t, s[i].p);
    }
    SumTimes(|s|, 1.0 / t, i => ProfileTerm(s, i), i => ProfileTerm(r, i));
    ScaledByInverse(t, t);
  }

  function Residual(s: Sample, estimate: real): real { s.x - estimate * s.p }

  function Standardised(s: seq<Sample>, estimate: real): (r: seq<real>)
    requires Positive(s)
    ensures |r| == |s|
  {
    seq(|s|, i requires 0 <= i < |s| && s[i].Positive() => Residual(s[i], estimate) / s[i].sigma)
  }

  /** Index of the first largest value. */
  function ArgMax(s: seq<real>): (k: nat)
    requires s != []
    ensures k < |s| && (forall i :: 0 <= i < |s| ==> s[i] <= s[k]) && (forall i :: 0 <= i < k ==> s[i] < s[k])
  {
    if |s| == 1 then 0
    else
      var k := ArgMax(s[..|s| - 1]);
      if s[|s| - 1] > s[k] then |s| - 1 else k
  }

  predicate IsHigh(score: real, median: real, mad: real, cosmicSigma: real) {
    score > median + cosmicSigma * Max(1.0, 1.4826 * mad)
  }

  /** z[k] stands out of the scatter of z. */
  predicate StandsOut(z: seq<real>, k: nat, cosmicSigma: real)
    requires k < |z|
  {
    IsHigh(z[k], Combine.Median(z), Combine.Mad(z), cosmicSigma)
  }

  predicate ExceedsModel(residual: real, model: real, minFraction: real) {
    residual > minFraction * Max(Abs(model), 1.0)
  }

  /** A positive isolated excursion, large against the local scatter and against the fitted profile. */
  ghost predicate IsCosmic(s: seq<Sample>, k: nat, cosmicSigma: real, minFraction: real)
    requires Positive(s) && k < |s|
  {
    CosmicAt(s, Estimate(s), k, cosmicSigma, minFraction)
  }

  predicate CosmicAt(s: seq<Sample>, estimate: real, k: nat, cosmicSigma: real, minFraction: real)
    requires Positive(s) && k < |s|
  {
    && StandsOut(Standardised(s, estimate), k, cosmicSigma)
    && ExceedsModel(Residual(s[k], estimate), estimate * s[k].p, minFraction)
  }

  ghost function Candidate(s: seq<Sample>): (k: nat)
    requires Positive(s) && s != []
    ensures k < |s|
  {
    ArgMax(Standardised(s, Estimate(s)))
  }

  ghost predicate Rejects(s: seq<Sample>, cosmicSigma: real, minFraction: real)
    requires Positive(s) && s != []
  {
    IsCosmic(s, Candidate(s), cosmicSigma, minFraction) && |s| - 1 >= 3
  }

  function Without(s: seq<Sample>, k: nat): (r: seq<Sample>)
    requires k < |s|
    ensures |r| == |s| - 1
    ensures forall i :: 0 <= i < |r| ==> r[i] == s[if i < k then i else i + 1]
  {
    s[..k] + s[k + 1..]
  }

  /** The samples the final estimate uses, with their profile renormalised. */
  ghost function Kept(s: seq<Sample>, cosmicSigma: real, minFraction: real): (r: seq<Sample>)
    requires Positive(s) && s != []
    ensures Positive(r) && r != [] && |r| >= |s| - 1
  {
    var all := Normalised(s);
    if Rejects(all, cosmicSigma, minFraction) then Normalised(Without(all, Candidate(all))) else all
  }

  datatype Extracted = Extracted(flux: Num, variance: Num, dq: Quality)

  /** A cut with fewer than three usable pixels fails. */
  ghost function ExtractCut(cut: seq<Pixel>, cosmicSigma: real, minFraction: real): Extracted
    requires forall i :: 0 <= i < |cut| ==> cut[i].SigmaIsRoot()
  {
    var s := Usables(cut);
    if |s| < 3 then Extracted(Missing, Missing, AllQuality(cut) + {EXTRACTION_FAILED})
    else
      var kept := Kept(s, cosmicSigma, minFraction);
      Extracted(Val(Estimate(kept)), Val(EstimateVariance(kept)),
                AllQuality(cut) + (if Rejects(Normalised(s), cosmicSigma, minFraction) then {COSMIC_RAY} else {}))
  }

  /** At most one sample is dropped, at least three are used, and their renormalised profile sums to one. */
  lemma {:induction false} KeptSamples(s: seq<Sample>, cosmicSigma: real, minFraction: real)
    requires Positive(s) && |s| >= 3
    ensures 3 <= |Kept(s, cosmicSigma, minFraction)| && |s| - 1 <= |Kept(s, cosmicSigma, minFraction)| <= |s|
    ensures ProfileTotal(Kept(s, cosmicSigma, minFraction)) == 1.0
  {
    var all := Normalised(s);
    NormalisedTotal(s);
    if Rejects(all, cosmicSigma, minFraction) {
      NormalisedTotal(Without(all, Candidate(all)));
    }
  }

  /** If the samples that are kept follow their renormalised profile with flux F, the estimate is F, and its reported
      variance is the smallest of all linear combinations with unit response. */
  lemma {:induction false} KeptEstimate(s: seq<Sample>, cosmicSigma: real, minFraction: real, flux: real, u: int -> real)
    requires Positive(s) && |s| >= 3
    ensures ProfileTimes(Kept(s, cosmicSigma, minFraction), flux) ==> Estimate(Kept(s, cosmicSigma, minFraction)) == flux
    ensures Response(Kept(s, cosmicSigma, minFraction), u) == 1.0 ==>
      EstimateVariance(Kept(s, cosmicSigma, minFraction)) <= CombinationVariance(Kept(s, cosmicSigma, minFraction), u)
  {
    var kept := Kept(s, cosmicSigma, minFraction);
    if ProfileTimes(kept, flux) {
      EstimateIsExact(kept, flux);
    }
    if Response(kept, u) == 1.0 {
      VarianceIsMinimal(kept, u);
    }
  }

  // ------------------------------------------------------- what a rejection does to the flux

  lemma {:induction false} TotalWithout(s: seq<Sample>, k: nat)
    requires k < |s|
    ensures ProfileTotal(Without(s, k)) == ProfileTotal(s) - s[k].p
  {
    var r, n := Without(s, k), |s|;
    var f, g := i => ProfileTerm(s, i), i => ProfileTerm(r, i);
    SumSplit(0, k, n, f);
    SumSplit(k, k + 1, n, f);
    SumSplit(0, k, n - 1, g);
    SumCongruence(0, k, f, g);
    SumShift(k, n - 1, g, f);
    assert Sum(k, k + 1, f) == f(k);
  }

  lemma {:induction false} SumShift(lo: int, hi: int, g: int -> real, f: int -> real)
    requires forall i :: lo <= i < hi ==> g(i) == f(i + 1)
    ensures Sum(lo, hi, g) == Sum(lo + 1, hi + 1, f)
    decreases hi - lo
  {
    if lo < hi {
      SumShift(lo, hi - 1, g, f);
    }
  }

  lemma {:induction false} Reassociate(a: real, b: real, c: real)
    ensures Times(Times(a, b), c) == Times(a, c * b)
  {}

  lemma {:induction false} RescaledProfile(s: seq<Sample>, flux: real)
    requires Positive(s) && s != [] && ProfileTimes(s, flux)
    ensures ProfileTimes(Normalised(s), Times(flux, ProfileTotal(s)))
  {
    GainIsPositive(s);
    var t, r := ProfileTotal(s), Normalised(s);
    forall i | 0 <= i < |r|
      ensures Follows(r[i], Times(flux, t))
    {
      assert Follows(s[i], flux);
      PositiveQuotient(s[i].p, t);
      Reassociate(flux, t, s[i].p / t);
    }
  }

  /** The share of the candidate in the renormalised profile. */
  ghost function CandidateShare(s: seq<Sample>): real
    requires Positive(s) && s != []
  {
    Normalised(s)[Candidate(Normalised(s))].p
  }

  ghost function Others(s: seq<Sample>): (r: seq<Sample>)
    requires Positive(s) && |s| >= 2
    ensures Positive(r) && r != []
  {
    Without(Normalised(s), Candidate(Normalised(s)))
  }

  lemma {:induction false} OthersTotal(s: seq<Sample>)
    requires Positive(s) && |s| >= 2
    ensures ProfileTotal(Others(s)) == 1.0 - CandidateShare(s) && CandidateShare(s) > 0.0
  {
    NormalisedTotal(s);
    TotalWithout(Normalised(s), Candidate(Normalised(s)));
    assert Normalised(s)[Candidate(Normalised(s))].Positive();
  }

  lemma {:induction false} OthersEstimate(s: seq<Sample>, flux: real)
    requires Positive(s) && |s| >= 2 && ProfileTimes(Others(s), flux)
    ensures Estimate(Normalised(Others(s))) == Times(flux, ProfileTotal(Others(s)))
  {
    RescaledProfile(Others(s), flux);
    EstimateIsExact(Normalised(Others(s)), Times(flux, ProfileTotal(Others(s))));
  }

  /** When a pixel is rejected and the others hold exactly their share of a flux F, the profile is renormalised over
      them and the reported flux is F times their share: too small by the share of the rejected pixel. It is F itself
      only when F is zero. */
  lemma {:induction false} RejectionLosesShare(s: seq<Sample>, cosmicSigma: real, minFraction: real, flux: real)
    requires Positive(s) && |s| >= 3 && Rejects(Normalised(s), cosmicSigma, minFraction)
    requires ProfileTimes(Others(s), flux)
    ensures Estimate(Kept(s, cosmicSigma, minFraction)) == flux * (1.0 - CandidateShare(s))
    ensures Estimate(Kept(s, cosmicSigma, minFraction)) == flux <==> flux == 0.0
  {
    ReducedEstimate(s, flux);
    assert Kept(s, cosmicSigma, minFraction) == Normalised(Others(s));
  }

  lemma {:induction false} ReducedEstimate(s: seq<Sample>, flux: real)
    requires Positive(s) && |s| >= 2 && ProfileTimes(Others(s), flux)
    ensures Estimate(Normalised(Others(s))) == flux * (1.0 - CandidateShare(s))
    ensures Estimate(Normalised(Others(s))) == flux <==> flux == 0.0
  {
    OthersTotal(s);
    OthersEstimate(s, flux);
    ShareLost(flux, CandidateShare(s));
  }

  lemma {:induction false} ShareLost(flux: real, p: real)
    requires p > 0.0
    ensures Times(flux, 1.0 - p) == flux * (1.0 - p)
    ensures flux * (1.0 - p) == flux <==> flux == 0.0
  {
    assert flux * (1.0 - p) == flux - flux * p;
  }

  // ---------------------------------------------------------------- a cut that shows it

  const PLAIN: Sample := Sample(0.25, 1.0, 1.0, 1.0)

  /** A cosmic ray of 100 on the last of four equal pixels that hold a flux of 4. */
  const HIT: seq<Sample> := [PLAIN, PLAIN, PLAIN, PLAIN.(x := 101.0)]

  const SCATTER: seq<real> := [-25.0, -25.0, -25.0, 75.0]

  lemma {:induction false} SumOfFour(f: int -> real)
    ensures Sum(0, 4, f) == f(0) + f(1) + f(2) + f(3)
  {
    assert Sum(0, 0, f) == 0.0;
    assert Sum(0, 1, f) == f(0);
    assert Sum(0, 2, f) == f(0) + f(1);
    assert Sum(0, 3, f) == f(0) + f(1) + f(2);
  }

  lemma {:induction false} HitEstimate()
    ensures Positive(HIT) && ProfileTotal(HIT) == 1.0 && Estimate(HIT) == 104.0
  {
    SumOfFour(i => ProfileTerm(HIT, i));
    SumOfFour(i => GainTerm(HIT, i));
    SumOfFour(i => SignalTerm(HIT, i));
    DivisionIs(Signal(HIT), Gain(HIT), 104.0);
  }

  lemma {:induction false} HitIsNormalised()
    ensures Positive(HIT) && Normalised(HIT) == HIT
  {
    HitEstimate();
  }

  lemma {:induction false} HitScatter()
    ensures Positive(HIT) && Standardised(HIT, 104.0) == SCATTER && ArgMax(SCATTER) == 3
  {}

  lemma {:induction false} MiddleOfFour(z: seq<real>)
    requires |z| == 4 && z[0] <= z[1] <= z[2] <= z[3]
    ensures Combine.Median(z) == (z[1] + z[2]) / 2.0
  {
    SortOfSorted(z, Combine.AtMost);
  }

  /** Three equal values and a higher one: the median is theirs, and the MAD vanishes. */
  lemma {:induction false} OneOfFour(z: seq<real>)
    requires |z| == 4 && z[0] == z[1] == z[2] < z[3]
    ensures Combine.Median(z) == z[0] && Combine.Mad(z) == 0.0
  {
    MiddleOfFour(z);
    MiddleOfFour(Combine.Deviations(z, z[0]));
  }

  lemma {:induction false} HitStandsOut(z: seq<real>)
    requires z == SCATTER
    ensures StandsOut(z, 3, 5.0)
  {
    OneOfFour(z);
  }

  lemma {:induction false} RejectsLast(s: seq<Sample>, z: seq<real>)
    requires Positive(s) && |s| == 4 && Estimate(s) == 104.0 && Standardised(s, 104.0) == z && z == SCATTER
    requires s[3].p == 0.25 && s[3].x == 101.0
    ensures Rejects(s, 5.0, 0.5) && Candidate(s) == 3
  {
    HitScatter();
    HitStandsOut(z);
  }

  lemma {:induction false} HitIsRejected()
    ensures Positive(HIT) && Rejects(Normalised(HIT), 5.0, 0.5) && Candidate(Normalised(HIT)) == 3
  {
    HitEstimate();
    HitIsNormalised();
    HitScatter();
    RejectsLast(HIT, SCATTER);
  }

  /** With the default thresholds the hit pixel is rejected; the other three hold exactly their share of a flux of 4, and
      the reported flux is 3. */
  lemma {:induction false} HitLosesShare()
    ensures Positive(HIT) && Rejects(Normalised(HIT), 5.0, 0.5) && ProfileTimes(Others(HIT), 4.0)
    ensures Estimate(Kept(HIT, 5.0, 0.5)) == 3.0
  {
    HitIsNormalised();
    HitIsRejected();
    RejectionLosesShare(HIT, 5.0, 0.5, 4.0);
  }

  // ------------------------------------------------------------------------ computation

  method WeightedSums(s: seq<Sample>) returns (signal: real, gain: real)
    requires Positive(s)
    ensures signal == Signal(s) && gain == Gain(s)
  {
    signal, gain := 0.0, 0.0;
    for i := 0 to |s|
      invariant signal == Sum(0, i, k => SignalTerm(s, k)) && gain == Sum(0, i, k => GainTerm(s, k))
    {
      assert s[i].Positive();
      signal := signal + s[i].p * s[i].x / s[i].v;
      gain := gain + s[i].p * s[i].p / s[i].v;
    }
    SumCongruence(0, |s|, k => SignalTerm(s, k), k => SignalTerm(s, k));
    SumCongruence(0, |s|, k => GainTerm(s, k), k => GainTerm(s, k));
  }

  method Normalise(s: seq<Sample>) returns (r: seq<Sample>)
    requires Positive(s) && s != []
    ensures r == Normalised(s)
  {
    var total := 0.0;
    for i := 0 to |s|
      invariant total == Sum(0, i, k => ProfileTerm(s, k))
    {
      total := total + s[i].p;
    }
    SumCongruence(0, |s|, k => ProfileTerm(s, k), k => ProfileTerm(s, k));
    GainIsPositive(s);
    r := [];
    for i := 0 to |s|
      invariant |r| == i && forall k :: 0 <= k < i ==> r[k] == Scaled(s[k], total)
    {
      r := r + [Scaled(s[i], total)];
    }
    assert r == Normalised(s);
  }

  method Estimated(s: seq<Sample>) returns (estimate: real, variance: real)
    requires Positive(s) && s != []
    ensures estimate == Estimate(s) && variance == EstimateVariance(s)
  {
    var signal, gain := WeightedSums(s);
    GainIsPositive(s);
    return signal / gain, 1.0 / gain;
  }

  method FindCosmic(s: seq<Sample>, estimate: real, cosmicSigma: real, minFraction: real) returns (candidate: nat, cosmic: bool)
    requires Positive(s) && s != [] && estimate == Estimate(s)
    ensures candidate == Candidate(s) && cosmic == IsCosmic(s, candidate, cosmicSigma, minFraction)
  {
    var z := Standardised(s, estimate);
    candidate := ArgMax(z);
    cosmic := CosmicAt(s, estimate, candidate, cosmicSigma, minFraction);
  }

  method ExtractColumn(cut: seq<Pixel>, cosmicSigma: real, minFraction: real) returns (r: Extracted)
    requires forall i :: 0 <= i < |cut| ==> cut[i].SigmaIsRoot()
    ensures r == ExtractCut(cut, cosmicSigma, minFraction)
  {
    var s := Usables(cut);
    if |s| < 3 {
      return Extracted(Missing, Missing, AllQuality(cut) + {EXTRACTION_FAILED});
    }
    var normalised := Normalise(s);
    var estimate, variance := Estimated(normalised);
    var candidate, cosmic := FindCosmic(normalised, estimate, cosmicSigma, minFraction);
    var dq: Quality := {};
    if cosmic && |normalised| - 1 >= 3 {
      var kept := Normalise(Without(normalised, candidate));
      estimate, variance := Estimated(kept);
      dq := dq + {COSMIC_RAY};
    }
    dq := dq + AllQuality(cut);
    r := Extracted(Val(estimate), Val(variance), dq);
  }

  /** One order of one beam: the three columns start as NaN, infinity and zero and are filled cut by cut. */
  method ExtractOrder(cuts: seq<seq<Pixel>>, cosmicSigma: real, minFraction: real)
    returns (flux: array<Num>, variance: array<Num>, dq: array<Quality>)
    requires forall c, i :: 0 <= c < |cuts| && 0 <= i < |cuts[c]| ==> cuts[c][i].SigmaIsRoot()
    ensures flux.Length == variance.Length == dq.Length == |cuts|
    ensures forall c :: 0 <= c < |cuts| ==> Extracted(flux[c], variance[c], dq[c]) == ExtractCut(cuts[c],
        cosmicSigma, minFraction)
  {
    flux := new Num[|cuts|](_ => Missing);
    variance := new Num[|cuts|](_ => Missing);
    dq := new Quality[|cuts|](_ => {});
    for c := 0 to |cuts|
      invariant forall k :: 0 <= k < c ==> Extracted(flux[k], variance[k], dq[k]) == ExtractCut(cuts[k], cosmicSigma,
          minFraction)
    {
      var r := ExtractColumn(cuts[c], cosmicSigma, minFraction);
      flux[c], variance[c], dq[c] := r.flux, r.variance, r.dq;
    }
  }
}
