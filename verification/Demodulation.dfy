/** Ratio demodulation of four sub-exposures at one wavelength sample. */
module Demodulation {
  import opened Numeric

  // ------------------------------------------------------------ positive fourth roots

  function Fourth(x: real): real { (x * x) * (x * x) }

  lemma {:induction false} SquareRootUnique(x: real, y: real, x2: real, y2: real)
    requires x > 0.0 && y > 0.0 && x2 == x * x && y2 == y * y && x2 == y2
    ensures x == y
  {
    SquareLeMeansLe(x, y);
    SquareLeMeansLe(y, x);
  }

  /** A positive real has at most one positive fourth root. */
  lemma {:induction false} FourthRootUnique(x: real, y: real)
    requires x > 0.0 && y > 0.0 && Fourth(x) == Fourth(y)
    ensures x == y
  {
    var x2, y2 := x * x, y * y;
    PositiveProduct(x, x, x2);
    PositiveProduct(y, y, y2);
    SquareRootUnique(x2, y2, x2 * x2, y2 * y2);
    SquareRootUnique(x, y, x2, y2);
  }

  // ------------------------------------------------------------------ signed products

  /** q or 1 / q, by the sign. */
  function Signed(q: real, sign: int): real
    requires q != 0.0
  {
    if sign == 1 then q else 1.0 / q
  }

  predicate IsSign(s: int) { s == 1 || s == -1 }

  function PowInt(x: real, n: int): real
    requires x != 0.0
  {
    if n >= 0 then Pow(x, n) else Pow(1.0 / x, -n)
  }

  lemma {:induction false} PowUp(x: real, y: real, n: int)
    requires x > 0.0 && y == 1.0 / x
    ensures PowInt(x, n) * x == PowInt(x, n + 1)
  {
    assert y * x == 1.0;
    if n < 0 {
      assert Pow(y, -n) == Pow(y, -n - 1) * y;
      assert n == -1 ==> Pow(y, 0) == Pow(x, 0);
    }
  }

  lemma {:induction false} PowDown(x: real, y: real, n: int)
    requires x > 0.0 && y == 1.0 / x
    ensures PowInt(x, n) * y == PowInt(x, n - 1)
  {
    assert y * x == 1.0;
    if n > 0 {
      assert Pow(x, n) == Pow(x, n - 1) * x;
    } else {
      assert Pow(y, -n + 1) == Pow(y, -n) * y;
      assert n == 0 ==> Pow(y, 0) == Pow(x, 0);
    }
  }

  /** Multiplying by a signed factor moves the exponent by the sign. */
  lemma {:induction false} PowStep(x: real, n: int, s: int)
    requires x > 0.0 && IsSign(s)
    ensures Times(PowInt(x, n), Signed(x, s)) == PowInt(x, n + s)
  {
    if s == 1 {
      PowUp(x, 1.0 / x, n);
    } else {
      PowDown(x, 1.0 / x, n);
    }
  }

  /** Signs act multiplicatively: (g * r^s)^t = g^t * r^(s t). */
  lemma {:induction false} SignedProduct(g: real, r: real, s: int, t: int, q: real)
    requires g > 0.0 && r > 0.0 && IsSign(s) && IsSign(t) && q == g * Signed(r, s)
    ensures q > 0.0 && IsSign(s * t) && Signed(q, t) == Times(Signed(g, t), Signed(r, s * t))
  {
    PositiveProduct(g, Signed(r, s), q);
  }

  lemma {:induction false} Regrouped(g: real, r: real, a: real, b: real)
    ensures Times(Times(g, r), Times(a, b)) == Times(Times(g, a), Times(r, b))
  {}

  // ----------------------------------------------------------------------- the model

  /** Sign vectors of the science combination and the two null checks. */
  datatype SignModel = SignModel(science: seq<int>, null1: seq<int>, null2: seq<int>, outputSign: int) {
    predicate HasSigns() { IsVector(science) && IsVector(null1) && IsVector(null2) && IsSign(outputSign) }

    predicate Orthogonal() {
      && HasSigns()
      && Total(science) == 0 && Total(null1) == 0 && Total(null2) == 0
      && Dot(science, null1) == 0 && Dot(science, null2) == 0 && Dot(null1, null2) == 0
    }

    function OutputScience(): seq<int>
      requires |science| == 4
    {
      [outputSign * science[0], outputSign * science[1], outputSign * science[2], outputSign * science[3]]
    }
  }

  predicate IsVector(v: seq<int>) { |v| == 4 && IsSign(v[0]) && IsSign(v[1]) && IsSign(v[2]) && IsSign(v[3]) }

  function Total(v: seq<int>): int
    requires |v| == 4
  {
    v[0] + v[1] + v[2] + v[3]
  }

  function SumPrefix(v: seq<int>, k: nat): int
    requires k <= |v|
  {
    if k == 0 then 0 else SumPrefix(v, k - 1) + v[k - 1]
  }

  function DotPrefix(u: seq<int>, v: seq<int>, k: nat): int
    requires k <= |u| && k <= |v|
  {
    if k == 0 then 0 else DotPrefix(u, v, k - 1) + u[k - 1] * v[k - 1]
  }

  lemma {:induction false} WholePrefix(u: seq<int>, v: seq<int>)
    requires |u| == 4 && |v| == 4
    ensures SumPrefix(v, 4) == Total(v) && DotPrefix(u, v, 4) == Dot(u, v)
  {
    var s1, s2, s3 := SumPrefix(v, 1), SumPrefix(v, 2), SumPrefix(v, 3);
    assert SumPrefix(v, 0) == 0 && s1 == SumPrefix(v, 0) + v[0] && s2 == s1 + v[1] && s3 == s2 + v[2] && SumPrefix(v,
        4) == s3 + v[3];
    var d1, d2, d3 := DotPrefix(u, v, 1), DotPrefix(u, v, 2), DotPrefix(u, v, 3);
    assert DotPrefix(u, v, 0) == 0 && d1 == DotPrefix(u, v, 0) + u[0] * v[0] && d2 == d1 + u[1] * v[1];
    assert d3 == d2 + u[2] * v[2] && DotPrefix(u, v, 4) == d3 + u[3] * v[3];
  }

  function Dot(u: seq<int>, v: seq<int>): int
    requires |u| == 4 && |v| == 4
  {
    u[0] * v[0] + u[1] * v[1] + u[2] * v[2] + u[3] * v[3]
  }

  /** The configured vectors of the simulated instrument, and those of the ESPaDOnS adapter, whose U output is negated. */
  function MostModel(): SignModel { SignModel([1, -1, -1, 1], [1, 1, -1, -1], [1, -1, 1, -1], 1) }

  function EspadonsModel(stokesU: bool): SignModel {
    SignModel([-1, 1, 1, -1], [1, 1, -1, -1], [1, -1, 1, -1], if stokesU then -1 else 1)
  }

  lemma {:induction false} ConfiguredModelsAreOrthogonal(stokesU: bool)
    ensures MostModel().Orthogonal() && EspadonsModel(stokesU).Orthogonal()
  {}

  /** One sub-exposure at one sample: the two beams, their variances, and the quality word. */
  datatype Beams = Beams(o: Num, e: Num, vo: Num, ve: Num, dq: Quality) {
    /** Both beams are finite and positive, so that their logarithm exists. */
    predicate Usable() { o.Val? && e.Val? && o.v > 0.0 && e.v > 0.0 }

    function Ratio(): real
      requires Usable()
    {
      o.v / e.v
    }

    /** Variance of the log ratio. */
    function LogVariance(): Num
      requires Usable()
    {
      if vo.Val? && ve.Val? then
        PositiveProduct(o.v, o.v, o.v * o.v);
        PositiveProduct(e.v, e.v, e.v * e.v);
        Val(vo.v / (o.v * o.v) + ve.v / (e.v * e.v))
      else Missing
    }
  }

  ghost predicate AllUsable(beams: seq<Beams>) {
    |beams| == 4 && forall k :: 0 <= k < 4 ==> beams[k].Usable()
  }

  /** The product of the first k beam ratios to their signs. */
  ghost function SignedProductOf(beams: seq<Beams>, signs: seq<int>, k: nat): real
    requires AllUsable(beams) && |signs| == 4 && k <= 4
  {
    if k == 0 then 1.0
    else
      Times(SignedProductOf(beams, signs, k - 1), Signed(beams[k - 1].Ratio(), signs[k - 1]))
  }

  /** root is exp(y), for y the mean signed log ratio: the positive fourth root of the signed product. */
  ghost predicate IsRoot(root: real, beams: seq<Beams>, signs: seq<int>)
    requires AllUsable(beams) && |signs| == 4
  {
    root > 0.0 && Fourth(root) == SignedProductOf(beams, signs, 4)
  }

  /** tanh(y / 2) for root = exp(y). */
  function Combination(root: real): real
    requires root > 0.0
  {
    (root - 1.0) / (root + 1.0)
  }

  lemma {:induction false} CombinationIsBounded(root: real)
    requires root > 0.0
    ensures -1.0 < Combination(root) < 1.0
  {
    var r := Combination(root);
    assert r * (root + 1.0) == root - 1.0;
    assert (1.0 - r) * (root + 1.0) == 2.0;
    assert (1.0 + r) * (root + 1.0) == 2.0 * root;
    SignOfFactor(1.0 - r, root + 1.0);
    SignOfFactor(1.0 + r, root + 1.0);
  }

  lemma {:induction false} SignOfFactor(a: real, b: real)
    requires b > 0.0 && a * b > 0.0
    ensures a > 0.0
  {}

  // -------------------------------------------------------------- exact recovery

  /** Sub-exposure k of a source of intensity I and polarization p, seen through beam gains a and b and a
      throughput t of its own, modulated with sign s. */
  ghost predicate Observed(beam: Beams, a: real, b: real, t: real, intensity: real, s: int, p: real) {
    && beam.o == Val(a * t * intensity * (1.0 + s as real * p))
    && beam.e == Val(b * t * intensity * (1.0 - s as real * p))
  }

  /** (1 + p) / (1 - p), the beam ratio of equal gains. */
  function Contrast(p: real): real
    requires -1.0 < p < 1.0
  {
    (1.0 + p) / (1.0 - p)
  }

  lemma {:induction false} ContrastPositive(p: real)
    requires -1.0 < p < 1.0
    ensures Contrast(p) > 0.0 && Contrast(p) * (1.0 - p) == 1.0 + p
  {
    var r := Contrast(p);
    assert r * (1.0 - p) == 1.0 + p;
    SignOfFactor(r, 1.0 - p);
  }

  lemma {:induction false} FlippedContrast(p: real)
    requires -1.0 < p < 1.0
    ensures Contrast(p) > 0.0 && Contrast(-p) == 1.0 / Contrast(p)
  {
    ContrastPositive(p);
    ContrastPositive(-p);
    var r, q := Contrast(p), Contrast(-p);
    assert q * (1.0 + p) == 1.0 - p;
    assert (q * r) * (1.0 - p) == q * (1.0 + p);
    assert (1.0 / r) * r == 1.0;
  }

  /** The beam ratio is the gain ratio times the contrast to the modulation sign. */
  lemma {:induction false} ObservedRatio(beam: Beams, a: real, b: real, t: real, intensity: real, s: int, p: real)
    requires a > 0.0 && b > 0.0 && t > 0.0 && intensity > 0.0 && -1.0 < p < 1.0 && IsSign(s)
    requires Observed(beam, a, b, t, intensity, s, p)
    ensures a / b > 0.0 && Contrast(p) > 0.0
    ensures beam.Usable() && beam.Ratio() == (a / b) * Signed(Contrast(p), s)
  {
    var g := a / b;
    assert g * b == a;
    var x := s as real * p;
    assert -1.0 < x < 1.0;
    var c := t * intensity;
    PositiveProduct(t, intensity, c);
    PositiveProduct(c, 1.0 - x, c * (1.0 - x));
    PositiveProduct(c, 1.0 + x, c * (1.0 + x));
    var n, d := a * (c * (1.0 + x)), b * (c * (1.0 - x));
    PositiveProduct(a, c * (1.0 + x), n);
    PositiveProduct(b, c * (1.0 - x), d);
    assert a * t * intensity * (1.0 + x) == n;
    assert b * t * intensity * (1.0 - x) == d;
    ContrastPositive(x);
    var r := Contrast(x);
    assert (g * r) * d == (g * b) * (c * (r * (1.0 - x)));
    if s == 1 {
      assert x == p;
    } else {
      assert x == -p;
      FlippedContrast(p);
    }
  }

  /** Four sub-exposures of one source, in order, each with its own throughput. */
  ghost predicate ObservedGroup(beams: seq<Beams>, a: real, b: real, t: seq<real>, intensity: real, signs: seq<int>, p: real) {
    && |beams| == 4 && |t| == 4 && IsVector(signs)
    && a > 0.0 && b > 0.0 && intensity > 0.0 && -1.0 < p < 1.0
    && forall k :: 0 <= k < 4 ==> ObservedAt(beams, a, b, t, intensity, signs, p, k)
  }

  ghost predicate ObservedAt(beams: seq<Beams>, a: real, b: real, t: seq<real>, intensity: real, signs: seq<int>,
                             p: real, k: int)
    requires |beams| == 4 && |t| == 4 && |signs| == 4 && 0 <= k < 4
  {
    t[k] > 0.0 && Observed(beams[k], a, b, t[k], intensity, signs[k], p)
  }

  lemma {:induction false} ObservedFactor(beam: Beams, a: real, b: real, t: real, intensity: real, s: int, p: real, sign: int)
    requires a > 0.0 && b > 0.0 && t > 0.0 && intensity > 0.0 && -1.0 < p < 1.0 && IsSign(s) && IsSign(sign)
    requires Observed(beam, a, b, t, intensity, s, p)
    ensures a / b > 0.0 && Contrast(p) > 0.0 && beam.Usable() && beam.Ratio() > 0.0 && IsSign(s * sign)
    ensures Signed(beam.Ratio(), sign) == Times(Signed(a / b, sign), Signed(Contrast(p), s * sign))
  {
    ObservedRatio(beam, a, b, t, intensity, s, p);
    SignedProduct(a / b, Contrast(p), s, sign, beam.Ratio());
  }

  /** The signed ratio of exposure k is a signed gain ratio times a signed contrast. */
  ghost predicate Factors(beams: seq<Beams>, g: real, r: real, modulation: seq<int>, signs: seq<int>, k: nat)
    requires AllUsable(beams) && g != 0.0 && r != 0.0 && k < 4 && |modulation| == 4 && |signs| == 4
  {
    && IsSign(signs[k]) && IsSign(modulation[k] * signs[k])
    && beams[k].Ratio() > 0.0
    && Signed(beams[k].Ratio(), signs[k]) == Times(Signed(g, signs[k]), Signed(r, modulation[k] * signs[k]))
  }

  lemma {:induction false} GroupFactors(beams: seq<Beams>, a: real, b: real, t: seq<real>, intensity: real,
                                        modulation: seq<int>, p: real, signs: seq<int>, g: real, r: real)
    requires ObservedGroup(beams, a, b, t, intensity, modulation, p) && IsVector(signs)
    requires g == a / b && r == Contrast(p)
    ensures AllUsable(beams) && g > 0.0 && r > 0.0
    ensures forall k: nat :: k < 4 ==> Factors(beams, g, r, modulation, signs, k)
  {
    forall k: nat | k < 4
      ensures beams[k].Usable() && g > 0.0 && r > 0.0 && IsSign(signs[k]) && IsSign(modulation[k] * signs[k])
      ensures beams[k].Ratio() > 0.0
      ensures Signed(beams[k].Ratio(), signs[k]) == Times(Signed(g, signs[k]), Signed(r, modulation[k] * signs[k]))
    {
      assert ObservedAt(beams, a, b, t, intensity, modulation, p, k);
      ObservedFactor(beams[k], a, b, t[k], intensity, modulation[k], p, signs[k]);
    }
  }

  lemma {:induction false} FactoredPrefix(beams: seq<Beams>, g: real, r: real, modulation: seq<int>, signs: seq<int>, k: nat)
    requires AllUsable(beams) && g > 0.0 && r > 0.0 && |modulation| == 4 && |signs| == 4 && k <= 4
    requires forall j: nat :: j < 4 ==> Factors(beams, g, r, modulation, signs, j)
    ensures SignedProductOf(beams, signs, k)
         == Times(PowInt(g, SumPrefix(signs, k)), PowInt(r, DotPrefix(modulation, signs, k)))
    decreases k
  {
    if k > 0 {
      FactoredPrefix(beams, g, r, modulation, signs, k - 1);
      assert Factors(beams, g, r, modulation, signs, k - 1);
      var s, m := signs[k - 1], modulation[k - 1];
      PrefixStep(g, r, SumPrefix(signs, k - 1), DotPrefix(modulation, signs, k - 1), s, m * s,
                 SignedProductOf(beams, signs, k - 1), Signed(beams[k - 1].Ratio(), s));
    }
  }

  lemma {:induction false} PrefixStep(g: real, r: real, n: int, d: int, s: int, m: int, x: real, q: real)
    requires g > 0.0 && r > 0.0 && IsSign(s) && IsSign(m)
    requires x == Times(PowInt(g, n), PowInt(r, d)) && q == Times(Signed(g, s), Signed(r, m))
    ensures Times(x, q) == Times(PowInt(g, n + s), PowInt(r, d + m))
  {
    PowStep(g, n, s);
    PowStep(r, d, m);
    Regrouped(PowInt(g, n), PowInt(r, d), Signed(g, s), Signed(r, m));
  }

  /** The signed product separates into a power of the gain ratio and a power of the contrast. */
  lemma {:induction false} GainAndContrast(beams: seq<Beams>, a: real, b: real, t: seq<real>, intensity: real,
                                           modulation: seq<int>, p: real, signs: seq<int>)
    requires ObservedGroup(beams, a, b, t, intensity, modulation, p) && IsVector(signs)
    ensures AllUsable(beams) && a / b > 0.0 && Contrast(p) > 0.0
    ensures SignedProductOf(beams, signs, 4)
         == Times(PowInt(a / b, Total(signs)), PowInt(Contrast(p), Dot(modulation, signs)))
  {
    GroupFactors(beams, a, b, t, intensity, modulation, p, signs, a / b, Contrast(p));
    FactoredPrefix(beams, a / b, Contrast(p), modulation, signs, 4);
    WholePrefix(modulation, signs);
  }

  lemma {:induction false} PowFour(x: real)
    ensures Pow(x, 4) == Fourth(x)
  {
    var p0, p1, p2, p3 := Pow(x, 0), Pow(x, 1), Pow(x, 2), Pow(x, 3);
  }

  /** A null combination of a noise-free group is exactly zero, whatever the gains, throughputs and polarization. */
  lemma {:induction false} NullIsZero(beams: seq<Beams>, a: real, b: real, t: seq<real>, intensity: real,
                                      modulation: seq<int>, p: real, signs: seq<int>, root: real)
    requires ObservedGroup(beams, a, b, t, intensity, modulation, p) && IsVector(signs)
    requires Total(signs) == 0 && Dot(modulation, signs) == 0
    requires AllUsable(beams) && IsRoot(root, beams, signs)
    ensures Combination(root) == 0.0
  {
    GainAndContrast(beams, a, b, t, intensity, modulation, p, signs);
    UnitFactor(PowInt(a / b, 0), PowInt(Contrast(p), 0));
    assert Fourth(1.0) == 1.0;
    FourthRootUnique(root, 1.0);
  }

  lemma {:induction false} SignSquares(v: seq<int>, w: seq<int>, s: int)
    requires IsVector(v) && IsSign(s) && w == [s * v[0], s * v[1], s * v[2], s * v[3]]
    ensures IsVector(w) && Dot(v, w) == 4 * s && Total(w) == s * Total(v)
  {}

  lemma {:induction false} OutputTotals(model: SignModel)
    requires model.Orthogonal()
    ensures IsVector(model.OutputScience()) && Total(model.OutputScience()) == 0
    ensures Dot(model.science, model.OutputScience()) == 4 * model.outputSign
  {
    SignSquares(model.science, model.OutputScience(), model.outputSign);
  }

  /** The science combination of a noise-free group is exactly the polarization times the output sign. */
  lemma {:induction false} ScienceIsExact(beams: seq<Beams>, a: real, b: real, t: seq<real>, intensity: real,
                                          model: SignModel, p: real, root: real)
    requires model.Orthogonal() && ObservedGroup(beams, a, b, t, intensity, model.science, p)
    requires AllUsable(beams) && IsRoot(root, beams, model.OutputScience())
    ensures Combination(root) == model.outputSign as real * p
  {
    var signs := model.OutputScience();
    OutputTotals(model);
    GainAndContrast(beams, a, b, t, intensity, model.science, p, signs);
    UnitFactor(PowInt(a / b, 0), PowInt(Contrast(p), 4 * model.outputSign));
    FlippedContrast(p);
    if model.outputSign == 1 {
      RootOfContrast(p, root);
    } else {
      assert PowInt(Contrast(p), -4) == Pow(1.0 / Contrast(p), 4);
      RootOfContrast(-p, root);
    }
  }

  lemma {:induction false} UnitFactor(one: real, x: real)
    requires one == 1.0
    ensures Times(one, x) == x
  {}

  lemma {:induction false} RootOfContrast(p: real, root: real)
    requires -1.0 < p < 1.0 && root > 0.0 && Fourth(root) == Pow(Contrast(p), 4)
    ensures Combination(root) == p
  {
    ContrastPositive(p);
    PowFour(Contrast(p));
    FourthRootUnique(root, Contrast(p));
  }
}
