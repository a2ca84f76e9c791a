/** The error matrix of the demodulated polarization and null checks: semidefiniteness and decorrelation. */
module ErrorPropagation {
  import opened Numeric
  import opened MergePixel
  import opened MergeCovariance
  import opened Demodulation
  import opened DemodulationGroup

  lemma {:induction false} SignSquare(s: int)
    requires IsSign(s)
    ensures (s * s) as real == 1.0
  {}

  lemma {:induction false} SignedSquare(x: real, y: real, z: real, f: int, g: int, h: int)
    requires IsSign(f) && IsSign(g) && IsSign(h)
    ensures x * x + y * y + z * z + 2.0 * (x * y) * (f * g) as real + 2.0 * (x * z) * (f * h) as real
          + 2.0 * (y * z) * (g * h) as real >= 0.0
  {
    var p, q, r := x * f as real, y * g as real, z * h as real;
    ThreeSquare(p, q, r);
    SignPair(x, y, f, g, p, q);
    SignPair(x, z, f, h, p, r);
    SignPair(y, z, g, h, q, r);
  }

  lemma {:induction false} SignPair(x: real, y: real, f: int, g: int, p: real, q: real)
    requires IsSign(f) && IsSign(g) && p == x * f as real && q == y * g as real
    ensures p * p == x * x && q * q == y * y && 2.0 * (p * q) == 2.0 * (x * y) * (f * g) as real
  {
    assert f == 1 ==> p == x;
    assert f == -1 ==> p == -x;
    assert g == 1 ==> q == y;
    assert g == -1 ==> q == -y;
  }

  lemma {:induction false} ThreeSquare(p: real, q: real, r: real)
    ensures p * p + q * q + r * r + 2.0 * (p * q) + 2.0 * (p * r) + 2.0 * (q * r) >= 0.0
  {
    var t := p + q + r;
    assert t * t >= 0.0;
    assert t * t == p * p + q * q + r * r + 2.0 * (p * q) + 2.0 * (p * r) + 2.0 * (q * r);
  }

  /** Quadratic form of the log covariances, with m the products of its arguments. */
  ghost function LogForm(v: seq<real>, f: seq<int>, g: seq<int>, h: seq<int>, x: real, y: real, z: real): real
    requires |v| == 4 && |f| == 4 && |g| == 4 && |h| == 4
  {
    Times(x * x, LogCovariance(v, f, f)) + Times(y * y, LogCovariance(v, g, g)) + Times(z * z, LogCovariance(v, h, h))
    + 2.0 * Times(x * y, LogCovariance(v, f, g)) + 2.0 * Times(x * z, LogCovariance(v, f, h))
    + 2.0 * Times(y * z, LogCovariance(v, g, h))
  }

  /** The share of sub-exposure k in a product of log covariances. */
  ghost function Part(m: real, v: real, w: int): real { Times(m * w as real, v) }

  lemma {:induction false} Distribute(m: real, v: seq<real>, f: seq<int>, g: seq<int>)
    requires |v| == 4 && |f| == 4 && |g| == 4
    ensures 16.0 * Times(m, LogCovariance(v, f, g))
         == Part(m, v[0], f[0] * g[0]) + Part(m, v[1], f[1] * g[1]) + Part(m, v[2], f[2] * g[2]) + Part(m, v[3], f[3] * g[3])
  {
    DistributeFour(m, v[0], v[1], v[2], v[3], (f[0] * g[0]) as real, (f[1] * g[1]) as real, (f[2] * g[2]) as real,
                   (f[3] * g[3]) as real);
  }

  lemma {:induction false} DistributeFour(m: real, v0: real, v1: real, v2: real, v3: real, w0: real, w1: real,
                                          w2: real, w3: real)
    ensures 16.0 * Times(m, (v0 * w0 + v1 * w1 + v2 * w2 + v3 * w3) / 16.0)
         == Times(m * w0, v0) + Times(m * w1, v1) + Times(m * w2, v2) + Times(m * w3, v3)
  {}

  ghost function ExposureForm(v: real, f: int, g: int, h: int, x: real, y: real, z: real): real {
    Part(x * x, v, f * f) + Part(y * y, v, g * g) + Part(z * z, v, h * h)
    + 2.0 * Part(x * y, v, f * g) + 2.0 * Part(x * z, v, f * h) + 2.0 * Part(y * z, v, g * h)
  }

  lemma {:induction false} ExposureFormSign(v: real, f: int, g: int, h: int, x: real, y: real, z: real)
    requires v >= 0.0 && IsSign(f) && IsSign(g) && IsSign(h)
    ensures ExposureForm(v, f, g, h, x, y, z) >= 0.0
  {
    SignedSquare(x, y, z, f, g, h);
    SignSquare(f);
    SignSquare(g);
    SignSquare(h);
    CollectSix(v, x * x * (f * f) as real, y * y * (g * g) as real, z * z * (h * h) as real,
               (x * y) * (f * g) as real, (x * z) * (f * h) as real, (y * z) * (g * h) as real);
  }

  lemma {:induction false} CollectSix(v: real, a: real, b: real, c: real, d: real, e: real, f: real)
    requires v >= 0.0 && a + b + c + 2.0 * d + 2.0 * e + 2.0 * f >= 0.0
    ensures Times(a, v) + Times(b, v) + Times(c, v) + 2.0 * Times(d, v) + 2.0 * Times(e, v) + 2.0 * Times(f, v) >= 0.0
  {
    var t := a + b + c + 2.0 * d + 2.0 * e + 2.0 * f;
    assert t * v == a * v + b * v + c * v + 2.0 * (d * v) + 2.0 * (e * v) + 2.0 * (f * v);
  }

  lemma {:induction false} LogFormSign(v: seq<real>, f: seq<int>, g: seq<int>, h: seq<int>, x: real, y: real, z: real)
    requires |v| == 4 && v[0] >= 0.0 && v[1] >= 0.0 && v[2] >= 0.0 && v[3] >= 0.0
    requires IsVector(f) && IsVector(g) && IsVector(h)
    ensures LogForm(v, f, g, h, x, y, z) >= 0.0
  {
    Distribute(x * x, v, f, f);
    Distribute(y * y, v, g, g);
    Distribute(z * z, v, h, h);
    Distribute(x * y, v, f, g);
    Distribute(x * z, v, f, h);
    Distribute(y * z, v, g, h);
    ExposureFormSign(v[0], f[0], g[0], h[0], x, y, z);
    ExposureFormSign(v[1], f[1], g[1], h[1], x, y, z);
    ExposureFormSign(v[2], f[2], g[2], h[2], x, y, z);
    ExposureFormSign(v[3], f[3], g[3], h[3], x, y, z);
  }

  lemma {:induction false} QuadOfScaled(a: real, d: real, s: real)
    ensures Quad(a, d * d * s) == Times((a * d) * (a * d), s)
  {
    assert a * a * (d * d * s) == ((a * d) * (a * d)) * s;
  }

  lemma {:induction false} TriOfScaled(a: real, b: real, d: real, e: real, s: real)
    ensures Tri(a, b, d * e * s) == Times((a * d) * (b * e), s)
  {
    assert a * b * (d * e * s) == ((a * d) * (b * e)) * s;
  }

  /** Propagating through the derivatives substitutes scaled arguments. */
  lemma {:induction false} ScaledForm(v: seq<real>, f: seq<int>, g: seq<int>, h: seq<int>, d0: real, d1: real, d2: real,
                                      a: real, b: real, c: real)
    requires |v| == 4 && |f| == 4 && |g| == 4 && |h| == 4
    ensures ErrorMatrix(v, f, g, h, d0, d1, d2).Form(a, b, c) == LogForm(v, f, g, h, a * d0, b * d1, c * d2)
  {
    QuadOfScaled(a, d0, LogCovariance(v, f, f));
    QuadOfScaled(b, d1, LogCovariance(v, g, g));
    QuadOfScaled(c, d2, LogCovariance(v, h, h));
    TriOfScaled(a, b, d0, d1, LogCovariance(v, f, g));
    TriOfScaled(a, c, d0, d2, LogCovariance(v, f, h));
    TriOfScaled(b, c, d1, d2, LogCovariance(v, g, h));
  }

  lemma {:induction false} ScaledVarianceSign(v: seq<real>, f: seq<int>, d: real)
    requires |v| == 4 && v[0] >= 0.0 && v[1] >= 0.0 && v[2] >= 0.0 && v[3] >= 0.0 && IsVector(f)
    ensures d * d * LogCovariance(v, f, f) >= 0.0
  {
    SignSquare(f[0]);
    SignSquare(f[1]);
    SignSquare(f[2]);
    SignSquare(f[3]);
    var s := LogCovariance(v, f, f);
  }

  ghost predicate NonNegativeVariances(beams: seq<Beams>) {
    forall k :: 0 <= k < |beams| ==> (beams[k].vo.Val? ==> beams[k].vo.v >= 0.0) && (beams[k].ve.Val? ==> beams[k].ve.v >= 0.0)
  }

  lemma {:induction false} LogVarianceSign(b: Beams)
    requires b.Usable() && b.LogVariance().Val? && b.vo.v >= 0.0 && b.ve.v >= 0.0
    ensures b.LogVariance().v >= 0.0
  {
    var s, t := b.o.v * b.o.v, b.e.v * b.e.v;
    PositiveProduct(b.o.v, b.o.v, s);
    PositiveProduct(b.e.v, b.e.v, t);
  }

  /** The sample as one order of the merge, with the blaze weight of the pixel. */
  function AsOrder(s: Sample, blaze: real): Order {
    Order(Cell(s.polarization, s.varianceP, blaze), Cell(s.null1, s.variance1, blaze), Cell(s.null2, s.variance2, blaze),
          s.c01, s.c02, s.c12)
  }

  lemma {:induction false} ErrorMatrixIsPsd(v: seq<real>, f: seq<int>, g: seq<int>, h: seq<int>, d0: real, d1: real, d2: real)
    requires |v| == 4 && v[0] >= 0.0 && v[1] >= 0.0 && v[2] >= 0.0 && v[3] >= 0.0
    requires IsVector(f) && IsVector(g) && IsVector(h)
    ensures ErrorMatrix(v, f, g, h, d0, d1, d2).Psd()
    ensures ErrorMatrix(v, f, g, h, d0, d1, d2).v0 >= 0.0
    ensures ErrorMatrix(v, f, g, h, d0, d1, d2).v1 >= 0.0
    ensures ErrorMatrix(v, f, g, h, d0, d1, d2).v2 >= 0.0
  {
    ScaledVarianceSign(v, f, d0);
    ScaledVarianceSign(v, g, d1);
    ScaledVarianceSign(v, h, d2);
    forall a: real, b: real, c: real
      ensures ErrorMatrix(v, f, g, h, d0, d1, d2).Form(a, b, c) >= 0.0
    {
      ScaledForm(v, f, g, h, d0, d1, d2, a, b, c);
      LogFormSign(v, f, g, h, a * d0, b * d1, c * d2);
    }
  }

  lemma {:induction false} LogVariancesSign(beams: seq<Beams>)
    requires |beams| == 4 && Usable(beams) && HasVariances(beams) && NonNegativeVariances(beams)
    ensures LogVariances(beams)[0] >= 0.0 && LogVariances(beams)[1] >= 0.0
    ensures LogVariances(beams)[2] >= 0.0 && LogVariances(beams)[3] >= 0.0
  {
    LogVarianceSign(beams[0]);
    LogVarianceSign(beams[1]);
    LogVarianceSign(beams[2]);
    LogVarianceSign(beams[3]);
  }

  lemma {:induction false} SampleErrorsArePsd(beams: seq<Beams>, model: SignModel, roots: Roots)
    requires |beams| == 4 && model.HasSigns() && roots.Positive() && Usable(beams) && HasVariances(beams)
    requires NonNegativeVariances(beams)
    ensures SampleErrors(beams, model, roots).Psd()
    ensures SampleErrors(beams, model, roots).v0 >= 0.0
    ensures SampleErrors(beams, model, roots).v1 >= 0.0
    ensures SampleErrors(beams, model, roots).v2 >= 0.0
  {
    LogVariancesSign(beams);
    OutputHasSigns(model);
    ErrorMatrixIsPsd(LogVariances(beams), model.OutputScience(), model.null1, model.null2,
                     Slope(roots.science), Slope(roots.null1), Slope(roots.null2));
  }

  /** The variances and covariances reported for (P, N1, N2) at a sample. */
  function ReportedErrors(s: Sample): Matrix3
    requires s.varianceP.Val? && s.variance1.Val? && s.variance2.Val? && s.c01.Val? && s.c02.Val? && s.c12.Val?
  {
    Matrix3(s.varianceP.v, s.variance1.v, s.variance2.v, s.c01.v, s.c02.v, s.c12.v)
  }

  /** From usable beams with non-negative variances all six errors are reported, and they form a positive semidefinite
      matrix: no combination of the three results has a negative variance. */
  lemma {:induction false} ReportedErrorsArePsd(beams: seq<Beams>, model: SignModel, roots: Roots)
    requires |beams| == 4 && model.HasSigns() && roots.Positive() && Usable(beams) && HasVariances(beams)
    requires NonNegativeVariances(beams)
    ensures var s := Demodulated(beams, model, roots);
      && s.varianceP.Val? && s.variance1.Val? && s.variance2.Val? && s.c01.Val? && s.c02.Val? && s.c12.Val?
      && ReportedErrors(s).Psd()
  {
    SampleErrorsArePsd(beams, model, roots);
    assert ReportedErrors(Demodulated(beams, model, roots)) == SampleErrors(beams, model, roots);
  }

  /** The same as one order of the merge: semidefinite on every quantity that has a weight. */
  lemma {:induction false} DemodulatedErrorsArePsd(beams: seq<Beams>, model: SignModel, roots: Roots, blaze: real)
    requires |beams| == 4 && model.HasSigns() && roots.Positive() && NonNegativeVariances(beams)
    ensures AsOrder(Demodulated(beams, model, roots), blaze).PsdWhereWeighted()
  {
    if Usable(beams) && HasVariances(beams) {
      SampleErrorsArePsd(beams, model, roots);
      PsdOrder(SampleErrors(beams, model, roots), Demodulated(beams, model, roots), blaze);
    } else {
      EmptyOrder(Demodulated(beams, model, roots), blaze);
    }
  }

  lemma {:induction false} PsdOrder(m: Matrix3, s: Sample, blaze: real)
    requires m.Psd() && s.varianceP == Val(m.v0) && s.variance1 == Val(m.v1) && s.variance2 == Val(m.v2)
    requires s.c01 == Val(m.c01) && s.c02 == Val(m.c02) && s.c12 == Val(m.c12)
    ensures AsOrder(s, blaze).PsdWhereWeighted()
  {
    assert AsOrder(s, blaze).Matrix() == m;
  }

  lemma {:induction false} EmptyOrder(s: Sample, blaze: real)
    requires s.varianceP == s.variance1 == s.variance2 == s.c01 == s.c02 == s.c12 == Missing
    ensures AsOrder(s, blaze).PsdWhereWeighted()
  {
    assert AsOrder(s, blaze).Matrix() == Matrix3(0.0, 0.0, 0.0, 0.0, 0.0, 0.0);
  }

  lemma {:induction false} ZeroCovariance(v: seq<real>, f: seq<int>, g: seq<int>, d: real, e: real)
    requires |v| == 4 && v[0] == v[1] == v[2] == v[3] && IsVector(f) && IsVector(g) && Dot(f, g) == 0
    ensures d * e * LogCovariance(v, f, g) == 0.0
  {
    var x := v[0];
    assert LogCovariance(v, f, g) == 0.0 by {
      var w0, w1, w2, w3 := (f[0] * g[0]) as real, (f[1] * g[1]) as real, (f[2] * g[2]) as real, (f[3] * g[3]) as real;
      assert w0 + w1 + w2 + w3 == 0.0;
      FactorOut(x, w0, w1, w2, w3);
    }
  }

  lemma {:induction false} FactorOut(x: real, w0: real, w1: real, w2: real, w3: real)
    ensures x * w0 + x * w1 + x * w2 + x * w3 == x * (w0 + w1 + w2 + w3)
  {}

  lemma {:induction false} OutputHasSigns(model: SignModel)
    requires model.HasSigns()
    ensures IsVector(model.OutputScience())
  {
    assert model.outputSign == 1 ==> model.OutputScience() == model.science;
  }

  lemma {:induction false} OutputIsOrthogonal(model: SignModel)
    requires model.Orthogonal()
    ensures IsVector(model.OutputScience())
    ensures Dot(model.OutputScience(), model.null1) == 0 && Dot(model.OutputScience(), model.null2) == 0
  {
    OutputHasSigns(model);
    SignedDot(model.science, model.OutputScience(), model.null1, model.outputSign);
    SignedDot(model.science, model.OutputScience(), model.null2, model.outputSign);
  }

  lemma {:induction false} SignedDot(u: seq<int>, w: seq<int>, v: seq<int>, s: int)
    requires |u| == 4 && |v| == 4 && IsSign(s) && w == [s * u[0], s * u[1], s * u[2], s * u[3]] && Dot(u, v) == 0
    ensures Dot(w, v) == 0
  {
    if s == 1 {
      assert w == u;
    } else {
      NegatedDot(u, w, v);
    }
  }

  lemma {:induction false} NegatedDot(u: seq<int>, w: seq<int>, v: seq<int>)
    requires |u| == 4 && |v| == 4 && w == [-u[0], -u[1], -u[2], -u[3]]
    ensures Dot(w, v) == -Dot(u, v)
  {}

  /** With equal log-ratio variances the three results are uncorrelated, because the sign vectors are orthogonal. */
  lemma {:induction false} EqualVariancesDecorrelate(beams: seq<Beams>, model: SignModel, roots: Roots)
    requires |beams| == 4 && model.Orthogonal() && roots.Positive() && Usable(beams) && HasVariances(beams)
    requires LogVariances(beams)[0] == LogVariances(beams)[1] == LogVariances(beams)[2] == LogVariances(beams)[3]
    ensures Demodulated(beams, model, roots).c01 == Val(0.0)
    ensures Demodulated(beams, model, roots).c02 == Val(0.0)
    ensures Demodulated(beams, model, roots).c12 == Val(0.0)
  {
    OutputIsOrthogonal(model);
    UncorrelatedErrors(LogVariances(beams), model.OutputScience(), model.null1, model.null2,
                       Slope(roots.science), Slope(roots.null1), Slope(roots.null2));
  }

  lemma {:induction false} UncorrelatedErrors(v: seq<real>, f: seq<int>, g: seq<int>, h: seq<int>, d0: real, d1: real, d2: real)
    requires |v| == 4 && v[0] == v[1] == v[2] == v[3] && IsVector(f) && IsVector(g) && IsVector(h)
    requires Dot(f, g) == 0 && Dot(f, h) == 0 && Dot(g, h) == 0
    ensures ErrorMatrix(v, f, g, h, d0, d1, d2).c01 == 0.0
    ensures ErrorMatrix(v, f, g, h, d0, d1, d2).c02 == 0.0
    ensures ErrorMatrix(v, f, g, h, d0, d1, d2).c12 == 0.0
  {
    ZeroCovariance(v, f, g, d0, d1);
    ZeroCovariance(v, f, h, d0, d2);
    ZeroCovariance(v, g, h, d1, d2);
  }
}
