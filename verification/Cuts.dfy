/** What the extraction of one cut gives in terms of its detector pixels. */
module Cuts {
  import opened Numeric
  import opened Extraction
  import Combine

  /** A pixel that takes part: finite value, finite positive variance, some profile, neither saturated nor bad. */
  predicate Measures(c: Pixel) {
    && c.value.Val? && c.variance.Val? && c.variance.v > 0.0 && c.profile > 0.0
    && c.quality * {SATURATED, BAD_PIXEL} == {}
  }

  function Measured(cut: seq<Pixel>): nat {
    if cut == [] then 0 else (if Measures(cut[0]) then 1 else 0) + Measured(cut[1..])
  }

  ghost predicate HasRoots(cut: seq<Pixel>) { forall i :: 0 <= i < |cut| ==> cut[i].SigmaIsRoot() }

  lemma {:induction false} UsableIff(c: Pixel)
    ensures c.Usable() <==> Measures(c)
  {
    assert Measures(c) ==> SATURATED !in c.quality * {SATURATED, BAD_PIXEL} && BAD_PIXEL !in c.quality * {SATURATED, BAD_PIXEL};
  }

  lemma {:induction false} UsablesAre(cut: seq<Pixel>)
    requires HasRoots(cut)
    ensures |Usables(cut)| == Measured(cut)
  {
    if cut != [] {
      UsableIff(cut[0]);
      UsablesAre(cut[1..]);
    }
  }

  lemma {:induction false} QualityMembers(cut: seq<Pixel>, bit: nat)
    ensures bit in AllQuality(cut) <==> exists i :: 0 <= i < |cut| && bit in cut[i].quality
  {
    if cut != [] {
      QualityMembers(cut[1..], bit);
      if i :| 0 <= i < |cut[1..]| && bit in cut[1..][i].quality {
        assert bit in cut[i + 1].quality;
      }
      if i :| 0 < i < |cut| && bit in cut[i].quality {
        assert cut[1..][i - 1] == cut[i];
      }
    }
  }

  /** A cut has a flux, and a variance, exactly when at least three of its pixels take part. Its flags are those of all its
      pixels, the failure mark of a cut that has none, and the mark of a rejection. */
  lemma {:induction false} FlagsIff(cut: seq<Pixel>, cosmicSigma: real, minFraction: real, bit: nat)
    requires HasRoots(cut)
    ensures var r := ExtractCut(cut, cosmicSigma, minFraction);
      && (r.flux.Val? <==> Measured(cut) >= 3) && (r.variance.Val? <==> Measured(cut) >= 3)
      && (bit in r.dq <==>
            || (exists i :: 0 <= i < |cut| && bit in cut[i].quality)
            || (bit == EXTRACTION_FAILED && Measured(cut) < 3)
            || (bit == COSMIC_RAY && Measured(cut) >= 3 && HasCosmic(Normalised(Usables(cut)), cosmicSigma, minFraction)))
  {
    UsablesAre(cut);
    QualityMembers(cut, bit);
    if Measured(cut) >= 3 {
      RejectsIff(Normalised(Usables(cut)), cosmicSigma, minFraction);
    }
  }

  /** What a pixel that takes no part holds has no influence on flux and variance. */
  lemma {:induction false} UnusableHasNoPart(cut: seq<Pixel>, k: nat, other: Pixel, cosmicSigma: real, minFraction: real)
    requires k < |cut| && HasRoots(cut) && HasRoots(cut[k := other]) && !Measures(cut[k]) && !Measures(other)
    ensures ExtractCut(cut[k := other], cosmicSigma, minFraction).flux == ExtractCut(cut, cosmicSigma, minFraction).flux
    ensures ExtractCut(cut[k := other], cosmicSigma, minFraction).variance == ExtractCut(cut, cosmicSigma, minFraction).variance
  {
    SameUsables(cut, k, other);
  }

  lemma {:induction false} SameUsables(cut: seq<Pixel>, k: nat, other: Pixel)
    requires k < |cut| && HasRoots(cut) && HasRoots(cut[k := other]) && !Measures(cut[k]) && !Measures(other)
    ensures Usables(cut[k := other]) == Usables(cut)
  {
    if k == 0 {
      UsableIff(cut[0]);
      UsableIff(other);
      assert cut[0 := other][1..] == cut[1..];
    } else {
      assert cut[k := other][1..] == cut[1..][k - 1 := other];
      SameUsables(cut[1..], k - 1, other);
    }
  }

  // ------------------------------------------------------------------------- rejection

  /** Residual of sample i from the fitted profile, over its standard deviation. */
  ghost function Score(s: seq<Sample>, e: real, i: int): real
    requires Positive(s) && 0 <= i < |s|
  {
    (s[i].x - e * s[i].p) / s[i].sigma
  }

  ghost function Scores(s: seq<Sample>, e: real): seq<real>
    requires Positive(s)
  {
    seq(|s|, i requires 0 <= i < |s| => Score(s, e, i))
  }

  /** Of more than three samples, the first one with the largest score stands out. */
  ghost predicate HasCosmic(s: seq<Sample>, cosmicSigma: real, minFraction: real)
    requires Positive(s) && s != []
  {
    var e := Estimate(s);
    var z := Scores(s, e);
    |s| > 3 && exists k :: 0 <= k < |s| && FirstLargest(z, k) && Outstanding(s[k], e, z, k, cosmicSigma, minFraction)
  }

  ghost predicate FirstLargest(z: seq<real>, k: int)
    requires 0 <= k < |z|
  {
    (forall i :: 0 <= i < |z| ==> z[i] <= z[k]) && (forall i :: 0 <= i < k ==> z[i] < z[k])
  }

  /** Its score stands out of the scores, and its residual of the model. */
  ghost predicate Outstanding(s: Sample, e: real, z: seq<real>, k: int, cosmicSigma: real, minFraction: real)
    requires 0 <= k < |z|
  {
    StandsOut(z, k, cosmicSigma) && ExceedsModel(Residual(s, e), e * s.p, minFraction)
  }

  /** A score stands out when it is above the median of the scores by more than the threshold, and by more than the threshold
      times 1.4826 MAD. */
  lemma {:induction false} StandsOutIff(z: seq<real>, k: nat, cosmicSigma: real)
    requires k < |z| && cosmicSigma >= 0.0
    ensures StandsOut(z, k, cosmicSigma) <==> Above(z[k], Combine.Median(z), Combine.Mad(z), cosmicSigma)
  {
    AboveIff(z[k], Combine.Median(z), Combine.Mad(z), cosmicSigma);
  }

  predicate Above(score: real, median: real, mad: real, cosmicSigma: real) {
    score - median > cosmicSigma && score - median > cosmicSigma * (1.4826 * mad)
  }

  lemma {:induction false} AboveIff(score: real, median: real, mad: real, cosmicSigma: real)
    requires cosmicSigma >= 0.0
    ensures IsHigh(score, median, mad, cosmicSigma) <==> Above(score, median, mad, cosmicSigma)
  {
    LargerProduct(cosmicSigma, 1.0, 1.4826 * mad);
  }

  lemma {:induction false} LargerProduct(c: real, a: real, b: real)
    requires c >= 0.0
    ensures c * Max(a, b) == Max(c * a, c * b)
  {
    if a < b {
      NonNegativeProduct(c, b - a, c * (b - a));
    } else {
      NonNegativeProduct(c, a - b, c * (a - b));
    }
  }

  /** A residual stands out when it is larger than the given fraction of the model, and larger than that fraction. */
  lemma {:induction false} ExceedsIff(residual: real, model: real, minFraction: real)
    requires minFraction >= 0.0
    ensures ExceedsModel(residual, model, minFraction) <==>
      residual > minFraction && residual > minFraction * Abs(model)
  {
    LargerProduct(minFraction, Abs(model), 1.0);
  }

  lemma {:induction false} OutstandingIff(s: seq<Sample>, e: real, k: nat, cosmicSigma: real, minFraction: real)
    requires Positive(s) && k < |s|
    ensures CosmicAt(s, e, k, cosmicSigma, minFraction) <==> Outstanding(s[k], e, Standardised(s, e), k, cosmicSigma, minFraction)
  {}

  lemma {:induction false} ScoresAre(s: seq<Sample>, e: real)
    requires Positive(s)
    ensures Scores(s, e) == Standardised(s, e)
  {
    forall i | 0 <= i < |s|
      ensures Scores(s, e)[i] == Standardised(s, e)[i]
    {
      assert s[i].Positive();
    }
  }

  lemma {:induction false} FirstLargestIff(z: seq<real>, k: nat)
    requires k < |z|
    ensures FirstLargest(z, k) <==> k == ArgMax(z)
  {
    if FirstLargest(z, k) && k != ArgMax(z) {
      assert false;
    }
  }

  /** A sample is rejected exactly when there are more than three and one of them stands out. */
  lemma {:induction false} RejectsIff(s: seq<Sample>, cosmicSigma: real, minFraction: real)
    requires Positive(s) && s != []
    ensures Rejects(s, cosmicSigma, minFraction) <==> HasCosmic(s, cosmicSigma, minFraction)
  {
    CandidateIff(s, Estimate(s), Scores(s, Estimate(s)), cosmicSigma, minFraction);
  }

  lemma {:induction false} CandidateIff(s: seq<Sample>, e: real, z: seq<real>, cosmicSigma: real, minFraction: real)
    requires Positive(s) && s != [] && e == Estimate(s) && z == Scores(s, e)
    ensures IsCosmic(s, Candidate(s), cosmicSigma, minFraction) <==>
      exists k :: 0 <= k < |s| && FirstLargest(z, k) && Outstanding(s[k], e, z, k, cosmicSigma, minFraction)
  {
    ScoresAre(s, e);
    OutstandingIff(s, e, Candidate(s), cosmicSigma, minFraction);
    forall k | 0 <= k < |s|
      ensures FirstLargest(z, k) <==> k == Candidate(s)
    {
      FirstLargestIff(z, k);
    }
  }

  // ------------------------------------------------------------------------ clean cuts

  lemma {:induction false} ZeroMedian(z: seq<real>)
    requires z != [] && forall i :: 0 <= i < |z| ==> z[i] == 0.0
    ensures Combine.Median(z) == 0.0
  {
    Combine.CountAll(z, 0.0, 0.0);
    Combine.MedianInMajority(z, 0.0, 0.0);
  }

  lemma {:induction false} NothingStandsOut(s: seq<Sample>, flux: real, cosmicSigma: real, minFraction: real)
    requires Positive(s) && s != [] && ProfileTimes(s, flux) && cosmicSigma >= 0.0
    ensures !Rejects(s, cosmicSigma, minFraction)
  {
    EstimateIsExact(s, flux);
    var z := Standardised(s, flux);
    forall i | 0 <= i < |z|
      ensures z[i] == 0.0
    {
      assert Follows(s[i], flux) && s[i].Positive();
      DivisionIs(Residual(s[i], flux), s[i].sigma, 0.0);
    }
    ZeroMedian(z);
    Combine.MadIsNonNegative(z);
    NonNegativeProduct(cosmicSigma, Max(1.0, 1.4826 * Combine.Mad(z)), cosmicSigma * Max(1.0, 1.4826 * Combine.Mad(z)));
  }

  ghost function ValueTotal(s: seq<Sample>): real { Sum(0, |s|, i => ValueTerm(s, i)) }

  lemma {:induction false} ValuesOfProfile(s: seq<Sample>, flux: real)
    requires ProfileTimes(s, flux)
    ensures ValueTotal(s) == Times(flux, ProfileTotal(s))
  {
    forall i | 0 <= i < |s|
      ensures ValueTerm(s, i) == Times(flux, ProfileTerm(s, i))
    {
      assert Follows(s[i], flux);
    }
    SumTimes(|s|, flux, i => ProfileTerm(s, i), i => ValueTerm(s, i));
  }

  /** A cut whose pixels follow the profile loses nothing: no pixel is rejected, and the flux is the sum of the values of all
      pixels that take part, whatever their variances and however the profile is scaled. */
  lemma {:induction false} CleanCutIsExact(cut: seq<Pixel>, flux: real, cosmicSigma: real, minFraction: real)
    requires HasRoots(cut) && Measured(cut) >= 3 && ProfileTimes(Usables(cut), flux) && cosmicSigma >= 0.0
    ensures ExtractCut(cut, cosmicSigma, minFraction).flux == Val(ValueTotal(Usables(cut)))
    ensures ExtractCut(cut, cosmicSigma, minFraction).dq == AllQuality(cut)
  {
    UsablesAre(cut);
    var s := Usables(cut);
    RescaledProfile(s, flux);
    var scaled := Times(flux, ProfileTotal(s));
    NothingStandsOut(Normalised(s), scaled, cosmicSigma, minFraction);
    EstimateIsExact(Normalised(s), scaled);
    ValuesOfProfile(s, flux);
  }

  // ---------------------------------------------------------------------- the estimate

  /** The samples of a cut without the one that stands out, if there is one, with their profile renormalised. */
  ghost predicate IsKept(kept: seq<Sample>, s: seq<Sample>, cosmicSigma: real, minFraction: real)
    requires Positive(s) && s != []
  {
    var all := Normalised(s);
    if HasCosmic(all, cosmicSigma, minFraction) then
      exists k :: 0 <= k < |all| && FirstLargest(Scores(all, Estimate(all)), k)
                  && Positive(Without(all, k)) && Without(all, k) != [] && kept == Normalised(Without(all, k))
    else kept == all
  }

  lemma {:induction false} KeptIs(s: seq<Sample>, cosmicSigma: real, minFraction: real)
    requires Positive(s) && |s| >= 3
    ensures IsKept(Kept(s, cosmicSigma, minFraction), s, cosmicSigma, minFraction)
  {
    var all := Normalised(s);
    RejectsIff(all, cosmicSigma, minFraction);
    ScoresAre(all, Estimate(all));
    FirstLargestIff(Scores(all, Estimate(all)), Candidate(all));
  }

  /** Flux and variance of a cut are those of the best unbiased combination of its kept samples: one with unit response whose
      value is the flux and whose variance is the reported one, and no other with unit response has a smaller variance. */
  lemma {:induction false} CutIsOptimal(cut: seq<Pixel>, cosmicSigma: real, minFraction: real)
    returns (kept: seq<Sample>, u: int -> real)
    requires HasRoots(cut) && Measured(cut) >= 3
    ensures Usables(cut) != [] && IsKept(kept, Usables(cut), cosmicSigma, minFraction)
    ensures var r := ExtractCut(cut, cosmicSigma, minFraction);
      && Response(kept, u) == 1.0 && r.flux == Val(Combination(kept, u)) && r.variance == Val(CombinationVariance(kept, u))
      && forall other: int -> real :: Response(kept, other) == 1.0 ==> r.variance.v <= CombinationVariance(kept, other)
  {
    UsablesAre(cut);
    kept := Kept(Usables(cut), cosmicSigma, minFraction);
    KeptIs(Usables(cut), cosmicSigma, minFraction);
    u := Weights(kept);
    OptimumIsAttained(kept, u);
    forall other: int -> real | Response(kept, other) == 1.0
      ensures EstimateVariance(kept) <= CombinationVariance(kept, other)
    {
      VarianceIsMinimal(kept, other);
    }
  }

  ghost function Weights(s: seq<Sample>): int -> real
    requires Positive(s) && s != []
  {
    i requires Positive(s) && s != [] => OptimalWeight(s, i)
  }

  const CLEAN: Pixel := Pixel(Val(1.0), Val(1.0), 1.0, {}, 0.25)

  /** Four equal pixels that hold a flux of 4, the last one with a cosmic ray of 100. */
  const HIT_CUT: seq<Pixel> := [CLEAN, CLEAN, CLEAN, CLEAN.(value := Val(101.0))]

  lemma {:induction false} OneMoreUsable(c: Pixel, rest: seq<Pixel>, x: Sample, samples: seq<Sample>)
    requires HasRoots(rest) && Usables(rest) == samples && c.SigmaIsRoot() && c.Usable()
    requires x == Sample(c.profile, c.value.v, c.variance.v, c.sigma)
    ensures HasRoots([c] + rest) && Usables([c] + rest) == [x] + samples
  {
    assert ([c] + rest)[1..] == rest;
  }

  lemma {:induction false} FourUsables(cut: seq<Pixel>, clean: Pixel, hit: Pixel, x: Sample, y: Sample)
    requires cut == [clean, clean, clean, hit] && clean.SigmaIsRoot() && clean.Usable() && hit.SigmaIsRoot() && hit.Usable()
    requires x == Sample(clean.profile, clean.value.v, clean.variance.v, clean.sigma)
    requires y == Sample(hit.profile, hit.value.v, hit.variance.v, hit.sigma)
    ensures HasRoots(cut) && Usables(cut) == [x, x, x, y]
  {
    OneMoreUsable(hit, [], y, []);
    OneMoreUsable(clean, [hit] + [], x, [y] + []);
    OneMoreUsable(clean, [clean] + ([hit] + []), x, [x] + ([y] + []));
    OneMoreUsable(clean, [clean] + ([clean] + ([hit] + [])), x, [x] + ([x] + ([y] + [])));
    assert cut == [clean] + ([clean] + ([clean] + ([hit] + [])));
  }

  lemma {:induction false} HitUsables()
    ensures HasRoots(HIT_CUT) && Usables(HIT_CUT) == HIT
  {
    FourUsables(HIT_CUT, CLEAN, CLEAN.(value := Val(101.0)), PLAIN, PLAIN.(x := 101.0));
  }

  /** Its flux is reported as 3, and marked. */
  lemma {:induction false} HitCutIsMarked()
    ensures HasRoots(HIT_CUT)
    ensures ExtractCut(HIT_CUT, 5.0, 0.5).flux == Val(3.0) && COSMIC_RAY in ExtractCut(HIT_CUT, 5.0, 0.5).dq
  {
    HitUsables();
    HitLosesShare();
    assert |HIT| == 4;
    MarkedCut(HIT_CUT, HIT, 5.0, 0.5);
  }

  lemma {:induction false} MarkedCut(cut: seq<Pixel>, s: seq<Sample>, cosmicSigma: real, minFraction: real)
    requires HasRoots(cut) && Usables(cut) == s && Positive(s) && |s| >= 3 && Rejects(Normalised(s), cosmicSigma, minFraction)
    ensures ExtractCut(cut, cosmicSigma, minFraction).flux == Val(Estimate(Kept(s, cosmicSigma, minFraction)))
    ensures COSMIC_RAY in ExtractCut(cut, cosmicSigma, minFraction).dq
  {}
}
