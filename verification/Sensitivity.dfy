/** What the demodulated values and their errors are in terms of the eight beams: the estimator, its response to a single
    beam, and the propagation of the beam variances. */
module Sensitivity {
  import opened Numeric
  import opened Demodulation
  import opened DemodulationGroup
  import opened MergeCovariance
  import opened ErrorPropagation

  // ------------------------------------------------------------------------ the estimator

  lemma {:induction false} FourthOfProduct(a: real, b: real)
    ensures Fourth(a * b) == Fourth(a) * Fourth(b)
  {
    var x, y := a * a, b * b;
    assert (a * b) * (a * b) == x * y;
    assert (x * y) * (x * y) == (x * x) * (y * y);
  }

  lemma {:induction false} FourthPositive(x: real)
    requires x > 0.0
    ensures Fourth(x) > 0.0
  {
    PositiveProduct(x, x, x * x);
    PositiveProduct(x * x, x * x, Fourth(x));
  }

  lemma {:induction false} CombinationIs(root: real, p: real)
    requires root > 0.0 && -1.0 < p < 1.0
    ensures Combination(root) == p <==> 1.0 + p == root * (1.0 - p)
  {
    var r := Combination(root);
    assert r * (root + 1.0) == root - 1.0;
    if 1.0 + p == root * (1.0 - p) {
      assert (r - p) * (root + 1.0) == 0.0;
    }
  }

  lemma {:induction false} FourthRootIff(x: real, y: real)
    requires x > 0.0 && y > 0.0
    ensures x == y <==> Fourth(x) == Fourth(y)
  {
    if Fourth(x) == Fourth(y) {
      FourthRootUnique(x, y);
    }
  }

  lemma {:induction false} RootIff(root: real, s: real, p: real)
    requires root > 0.0 && -1.0 < p < 1.0 && Fourth(root) == s
    ensures Combination(root) == p <==> Fourth(1.0 + p) == Times(s, Fourth(1.0 - p))
  {
    var q, y := 1.0 - p, root * (1.0 - p);
    PositiveProduct(root, q, y);
    CombinationIs(root, p);
    FourthTimes(root, q, y, s);
    FourthRootIff(1.0 + p, y);
  }

  lemma {:induction false} FourthTimes(root: real, q: real, y: real, s: real)
    requires y == root * q && s == Fourth(root)
    ensures Fourth(y) == Times(s, Fourth(q))
  {
    FourthOfProduct(root, q);
  }

  /** p solves (1 + p)^4 = S (1 - p)^4, for S the product of the four beam ratios to their signs. */
  ghost predicate Solves(p: real, beams: seq<Beams>, signs: seq<int>)
    requires AllUsable(beams) && |signs| == 4
  {
    -1.0 < p < 1.0 && Fourth(1.0 + p) == Times(SignedProductOf(beams, signs, 4), Fourth(1.0 - p))
  }

  lemma {:induction false} CombinationIff(root: real, beams: seq<Beams>, signs: seq<int>, p: real)
    requires AllUsable(beams) && |signs| == 4 && IsRoot(root, beams, signs)
    ensures Combination(root) == p <==> Solves(p, beams, signs)
  {
    CombinationIsBounded(root);
    if -1.0 < p < 1.0 {
      RootIff(root, SignedProductOf(beams, signs, 4), p);
    }
  }

  /** For any beams, noisy or not, the polarization and the two null values are the solutions of this equation for their
      own sign vectors, and the only ones. */
  lemma {:induction false} EstimatesIff(beams: seq<Beams>, model: SignModel, roots: Roots, p: real)
    requires model.HasSigns() && roots.Positive() && AllUsable(beams) && RootsOf(roots, beams, model)
    ensures Demodulated(beams, model, roots).polarization == Val(p) <==> Solves(p, beams, model.OutputScience())
    ensures Demodulated(beams, model, roots).null1 == Val(p) <==> Solves(p, beams, model.null1)
    ensures Demodulated(beams, model, roots).null2 == Val(p) <==> Solves(p, beams, model.null2)
  {
    CombinationIff(roots.science, beams, model.OutputScience(), p);
    CombinationIff(roots.null1, beams, model.null1, p);
    CombinationIff(roots.null2, beams, model.null2, p);
  }

  // ------------------------------------------------------------- response to a single beam

  lemma {:induction false} SlopeClosed(x: real, u: real)
    requires x > 0.0 && u == 1.0 / (x + 1.0)
    ensures Slope(x) == 2.0 * x * u * u
  {
    var r := Combination(x);
    assert u * (x + 1.0) == 1.0;
    assert r == (x - 1.0) * u;
    assert 1.0 - r == 2.0 * u && 1.0 + r == 2.0 * x * u;
    assert 1.0 - r * r == (1.0 - r) * (1.0 + r);
    assert (2.0 * u) * (2.0 * x * u) == 4.0 * x * u * u;
  }

  lemma {:induction false} Difference(x: real, y: real, u: real, v: real)
    requires x > 0.0 && y > 0.0 && u == 1.0 / (x + 1.0) && v == 1.0 / (y + 1.0)
    ensures Combination(y) - Combination(x) == 2.0 * (y - x) * u * v
  {
    assert u * (x + 1.0) == 1.0 && v * (y + 1.0) == 1.0;
    assert Combination(x) == (x - 1.0) * u == 1.0 - 2.0 * u;
    assert Combination(y) == (y - 1.0) * v == 1.0 - 2.0 * v;
    assert u - v == (u * (y + 1.0)) * v - u * (v * (x + 1.0)) + (u - u * (v * (y + 1.0))) - (v - v * (u * (x + 1.0)));
    assert u * (v * (y + 1.0)) == u && v * (u * (x + 1.0)) == v;
    assert u - v == (y - x) * u * v;
  }

  /** The slope is that of the estimator: the exact change of the estimate when its root is multiplied by q. */
  lemma {:induction false} SlopeIsExact(x: real, q: real)
    requires x > 0.0 && q > 0.0
    ensures x * q > 0.0
    ensures Combination(x * q) - Combination(x) == (q - 1.0) * Slope(x) * ((x + 1.0) / (x * q + 1.0))
  {
    var y := x * q;
    PositiveProduct(x, q, y);
    var u, v := 1.0 / (x + 1.0), 1.0 / (y + 1.0);
    assert u * (x + 1.0) == 1.0;
    SlopeClosed(x, u);
    Difference(x, y, u, v);
    var w := (x + 1.0) / (y + 1.0);
    assert w == (x + 1.0) * v;
    assert u * w == v;
    assert y - x == (q - 1.0) * x;
    assert (q - 1.0) * (2.0 * x * u * u) * w == 2.0 * ((q - 1.0) * x) * u * (u * w);
  }

  /** Derivative of an estimate by a beam x that enters it with the given sign: the slope over four times the beam. */
  function Gain(root: real, sign: int, x: real): real
    requires root > 0.0 && x > 0.0
  {
    sign as real * Slope(root) / (4.0 * x)
  }

  /** d lies between 1 and 1 / q. */
  ghost predicate NearOne(d: real, q: real) { if q >= 1.0 then d <= 1.0 <= d * q else d * q <= 1.0 <= d }

  lemma {:induction false} NearOneProduct(d: real, q: real, e: real, r: real)
    requires q > 0.0 && r > 0.0 && NearOne(d, q) && NearOne(e, r) && (q >= 1.0 <==> r >= 1.0) && d > 0.0 && e > 0.0
    ensures NearOne(d * e, q * r)
  {
    assert (d * e) * (q * r) == (d * q) * (e * r);
    if q >= 1.0 {
      ProductLe(d, 1.0, e, 1.0);
      ProductLe(1.0, d * q, 1.0, e * r);
      ProductLe(1.0, q, 1.0, r);
    } else {
      PositiveProduct(d, q, d * q);
      PositiveProduct(e, r, e * r);
      ProductLe(1.0, d, 1.0, e);
      ProductLe(d * q, 1.0, e * r, 1.0);
      BelowOne(q, r);
    }
  }

  lemma {:induction false} BelowOne(q: real, r: real)
    requires 0.0 < q < 1.0 && 0.0 < r < 1.0
    ensures q * r < 1.0
  {
    PositiveProduct(q, 1.0 - r, q * (1.0 - r));
  }

  lemma {:induction false} NearQuotient(a: real, b: real, d: real, q: real)
    requires b > 0.0 && a > 0.0 && d * b == a && q > 0.0
    requires if q >= 1.0 then a <= b <= a * q else a * q <= b <= a
    ensures d > 0.0 && NearOne(d, q)
  {
    SignOfFactor(d, b);
    var e := d * q;
    Exchanged(d, b, q, a, e);
    if q >= 1.0 {
      Cancel(d, 1.0, b, a, b);
      Cancel(1.0, e, b, b, a * q);
    } else {
      Cancel(1.0, d, b, b, a);
      Cancel(e, 1.0, b, a * q, b);
    }
  }

  lemma {:induction false} Exchanged(d: real, b: real, q: real, a: real, e: real)
    requires d * b == a && e == d * q
    ensures e * b == a * q
  {
    assert (d * q) * b == (d * b) * q;
  }

  lemma {:induction false} Cancel(x: real, y: real, b: real, p: real, q: real)
    requires b > 0.0 && p == x * b && q == y * b && p <= q
    ensures x <= y
  {
    if x > y {
      PositiveProduct(x - y, b, p - q);
    }
  }

  lemma {:induction false} SizeOfFactor(m: real)
    requires m > 0.0
    ensures m >= 1.0 ==> m <= m * m <= m * m * m
    ensures m < 1.0 ==> m * m * m <= m * m <= m
    ensures m * m > 0.0 && m * m * m > 0.0
  {
    PositiveProduct(m, m, m * m);
    PositiveProduct(m * m, m, m * m * m);
    if m >= 1.0 {
      NonNegativeProduct(m, m - 1.0, m * (m - 1.0));
      NonNegativeProduct(m * m, m - 1.0, (m * m) * (m - 1.0));
    } else {
      PositiveProduct(m, 1.0 - m, m * (1.0 - m));
      PositiveProduct(m * m, 1.0 - m, (m * m) * (1.0 - m));
    }
  }

  /** 4 / ((m + 1) (m^2 + 1)), the ratio of 4 (m - 1) and m^4 - 1, lies between 1 and 1 / m^3. */
  lemma {:induction false} Lever(m: real, c: real) returns (h: real)
    requires m > 0.0 && c == m * m * m
    ensures Times(4.0, m - 1.0) == Times(Fourth(m) - 1.0, h) && h > 0.0 && NearOne(h, c)
  {
    var b := (m + 1.0) * (m * m + 1.0);
    SizeOfFactor(m);
    assert b == c + m * m + m + 1.0;
    h := 4.0 / b;
    assert h * b == 4.0;
    assert Fourth(m) - 1.0 == (m - 1.0) * b;
    assert (m - 1.0) * b * h == (m - 1.0) * (h * b);
    NearQuotient(4.0, b, h, c);
  }

  ghost function Moved(a: real, slope: real, g: real, t: int): real {
    if t == 1 then a * slope * g else -(a * slope * g)
  }

  lemma {:induction false} RootUp(x: real, m: real, y: real, slope: real) returns (g: real)
    requires x > 0.0 && m > 0.0 && y == x * m && y > 0.0 && slope == Slope(x)
    ensures Combination(y) - Combination(x) == Moved(m - 1.0, slope, g, 1) && g > 0.0 && NearOne(g, m)
  {
    g := RootStep(x, m, y, slope);
    UpwardBounds(x, m, y);
    NearQuotient(x + 1.0, y + 1.0, g, m);
  }

  lemma {:induction false} UpwardBounds(x: real, m: real, y: real)
    requires x > 0.0 && m > 0.0 && y == x * m
    ensures if m >= 1.0 then x + 1.0 <= y + 1.0 <= (x + 1.0) * m else (x + 1.0) * m <= y + 1.0 <= x + 1.0
  {
    if m >= 1.0 {
      NonNegativeProduct(x, m - 1.0, x * (m - 1.0));
    } else {
      NonNegativeProduct(x, 1.0 - m, x * (1.0 - m));
    }
  }

  lemma {:induction false} RootDown(x: real, m: real, n: real, y: real, slope: real) returns (g: real)
    requires x > 0.0 && m > 0.0 && n * m == 1.0 && n > 0.0 && y == x * n && y > 0.0 && slope == Slope(x)
    ensures Combination(y) - Combination(x) == Moved(m - 1.0, slope, g, -1) && g > 0.0 && NearOne(g, m)
  {
    var w := RootStep(x, n, y, slope);
    g := DownwardFactor(x, m, n, y + 1.0, w);
    Rearranged(n, w, m, g, slope, Combination(y) - Combination(x));
    DownwardBounds(x, m);
    NearQuotient(x + 1.0, x + m, g, m);
  }

  lemma {:induction false} RootStep(x: real, q: real, y: real, slope: real) returns (w: real)
    requires x > 0.0 && q > 0.0 && y == x * q && y > 0.0 && slope == Slope(x)
    ensures w * (y + 1.0) == x + 1.0 && Combination(y) - Combination(x) == Moved(q - 1.0, slope, w, 1)
  {
    SlopeIsExact(x, q);
    w := (x + 1.0) / (y + 1.0);
  }

  lemma {:induction false} DownwardBounds(x: real, m: real)
    requires x > 0.0 && m > 0.0
    ensures if m >= 1.0 then x + 1.0 <= x + m <= (x + 1.0) * m else (x + 1.0) * m <= x + m <= x + 1.0
  {
    if m >= 1.0 {
      NonNegativeProduct(x, m - 1.0, x * (m - 1.0));
    } else {
      NonNegativeProduct(x, 1.0 - m, x * (1.0 - m));
    }
  }

  lemma {:induction false} DownwardFactor(x: real, m: real, n: real, b: real, w: real) returns (g: real)
    requires n * m == 1.0 && b == x * n + 1.0 && w * b == x + 1.0
    ensures g * (x + m) == x + 1.0 && (n - 1.0) * w == -((m - 1.0) * g)
  {
    g := w * n;
    assert g * m == w * (n * m) == w;
    assert b * m == x * (n * m) + m == x + m;
    assert g * (b * m) == (g * m) * b;
    assert (m - 1.0) * g == g * m - g;
  }

  lemma {:induction false} Rearranged(n: real, w: real, m: real, g: real, slope: real, change: real)
    requires (n - 1.0) * w == -((m - 1.0) * g) && change == Moved(n - 1.0, slope, w, 1)
    ensures change == Moved(m - 1.0, slope, g, -1)
  {
    assert (n - 1.0) * slope * w == ((n - 1.0) * w) * slope;
    assert (m - 1.0) * slope * g == ((m - 1.0) * g) * slope;
  }

  /** What the gain makes of a change of the beam from x to y, times a factor. */
  ghost function Effect(root: real, sign: int, x: real, y: real, factor: real): real
    requires root > 0.0 && x > 0.0
  {
    Gain(root, sign, x) * (y - x) * factor
  }

  lemma {:induction false} RootMoves(root: real, t: int, m: real, slope: real) returns (g: real)
    requires root > 0.0 && IsSign(t) && m > 0.0 && slope == Slope(root)
    ensures root * Signed(m, t) > 0.0 && g > 0.0 && NearOne(g, m)
    ensures Combination(root * Signed(m, t)) - Combination(root)
         == Moved(m - 1.0, slope, g, t)
  {
    var n := 1.0 / m;
    assert n * m == 1.0;
    SignOfFactor(n, m);
    var y := root * Signed(m, t);
    PositiveProduct(root, Signed(m, t), y);
    if t == 1 {
      g := RootUp(root, m, y, slope);
    } else {
      g := RootDown(root, m, n, y, slope);
    }
  }

  lemma {:induction false} FourthSplit(m: real, c: real, f: real)
    requires m > 0.0 && c == m * m * m && f == Fourth(m)
    ensures f == m * c && c > 0.0 && (m >= 1.0 <==> c >= 1.0)
  {
    SizeOfFactor(m);
    assert (m * m) * (m * m) == m * (m * m * m);
  }

  /** The change of the estimate when a beam x that enters with sign t is multiplied by f = m^4, and its root so by m or
      1 / m: the gain times the change of the beam, up to a factor between 1 and the ratio of the old to the new beam. */
  lemma {:induction false} RootResponse(root: real, other: real, t: int, m: real, f: real, x: real) returns (d: real)
    requires root > 0.0 && IsSign(t) && m > 0.0 && x > 0.0 && f == Fourth(m) && other == root * Signed(m, t)
    ensures other > 0.0 && NearOne(d, f)
    ensures Combination(other) - Combination(root) == Effect(root, t, x, x * f, d)
  {
    var c := m * m * m;
    var h := Lever(m, c);
    var g := RootMoves(root, t, m, Slope(root));
    d := g * h;
    FourthSplit(m, c, f);
    NearOneProduct(g, m, h, c);
    Levered(root, t, m - 1.0, f, x, g, h, d, Combination(other) - Combination(root));
  }

  lemma {:induction false} Levered(root: real, t: int, a: real, f: real, x: real, g: real, h: real,
                                   d: real, change: real)
    requires root > 0.0 && x > 0.0 && IsSign(t) && Times(4.0, a) == Times(f - 1.0, h) && d == g * h
    requires change == Moved(a, Slope(root), g, t)
    ensures change == Effect(root, t, x, x * f, d)
  {
    var e, s, b := Gain(root, t, x), t as real * Slope(root), f - 1.0;
    assert e * (4.0 * x) == s;
    assert change == s * g * a;
    assert x * f - x == x * b;
    assert e * (x * b) * d == ((e * (4.0 * x)) * g) * (b * h) / 4.0;
    assert (s * g) * (4.0 * a) / 4.0 == s * g * a;
  }

  // ----------------------------------------------------------------------- the eight beams

  /** The beams with one of exposure k, the ordinary or the extraordinary one, multiplied by f. */
  function Brighter(beams: seq<Beams>, k: nat, ordinary: bool, f: real): seq<Beams>
    requires |beams| == 4 && k < 4 && beams[k].Usable()
  {
    beams[k := if ordinary then beams[k].(o := Val(beams[k].o.v * f)) else beams[k].(e := Val(beams[k].e.v * f))]
  }

  function BeamOf(beams: seq<Beams>, k: nat, ordinary: bool): real
    requires |beams| == 4 && k < 4 && beams[k].Usable()
  {
    if ordinary then beams[k].o.v else beams[k].e.v
  }

  /** The sign with which a beam enters an estimate. */
  function Entering(signs: seq<int>, k: nat, ordinary: bool): int
    requires |signs| == 4 && k < 4
  {
    if ordinary then signs[k] else -signs[k]
  }

  lemma {:induction false} SignedOfProduct(q: real, f: real, s: int, c: int)
    requires q > 0.0 && f > 0.0 && IsSign(s) && IsSign(c)
    ensures q * Signed(f, c) > 0.0
    ensures Signed(q * Signed(f, c), s) == Times(Signed(q, s), Signed(f, c * s))
  {
    SignedProduct(q, f, c, s, q * Signed(f, c));
  }

  lemma {:induction false} RatioOfBrighter(o: real, e: real, f: real)
    requires o > 0.0 && e > 0.0 && f > 0.0
    ensures (o * f) / e == (o / e) * f && o / (e * f) == (o / e) * (1.0 / f) && o * f > 0.0 && e * f > 0.0 && o / e > 0.0
  {
    PositiveProduct(o, f, o * f);
    PositiveProduct(e, f, e * f);
    var q, g := o / e, 1.0 / f;
    assert q * e == o && g * f == 1.0;
    SignOfFactor(q, e);
    RatioTimes(o * f, e, q * f, q, f, o);
    RatioOver(o, e * f, q * g, q, g, e, f);
  }

  lemma {:induction false} RatioTimes(a: real, b: real, r: real, q: real, f: real, o: real)
    requires b > 0.0 && a == o * f && r == q * f && q * b == o
    ensures a / b == r
  {
    assert r * b == a by {
      assert (q * f) * b == (q * b) * f;
    }
    IsQuotient(a, b, r);
  }

  lemma {:induction false} RatioOver(o: real, b: real, r: real, q: real, g: real, e: real, f: real)
    requires b > 0.0 && b == e * f && r == q * g && q * e == o && g * f == 1.0
    ensures o / b == r
  {
    assert (q * g) * (e * f) == (q * e) * (g * f);
    IsQuotient(o, b, r);
  }

  lemma {:induction false} IsQuotient(a: real, b: real, r: real)
    requires b > 0.0 && r * b == a
    ensures a / b == r
  {}

  lemma {:induction false} BrighterRatio(beams: seq<Beams>, k: nat, ordinary: bool, f: real, o: real, e: real)
    requires AllUsable(beams) && k < 4 && f > 0.0 && o == beams[k].o.v && e == beams[k].e.v
    ensures AllUsable(Brighter(beams, k, ordinary, f)) && beams[k].Ratio() > 0.0
    ensures Brighter(beams, k, ordinary, f)[k].Ratio() == beams[k].Ratio() * Signed(f, if ordinary then 1 else -1)
  {
    RatioOfBrighter(o, e, f);
  }

  lemma {:induction false} BrighterFactor(beams: seq<Beams>, signs: seq<int>, k: nat, ordinary: bool, f: real)
    requires AllUsable(beams) && IsVector(signs) && k < 4 && f > 0.0
    ensures AllUsable(Brighter(beams, k, ordinary, f)) && Brighter(beams, k, ordinary, f)[k].Ratio() != 0.0
    ensures beams[k].Ratio() != 0.0
    ensures Signed(Brighter(beams, k, ordinary, f)[k].Ratio(), signs[k])
         == Times(Signed(beams[k].Ratio(), signs[k]), Signed(f, Entering(signs, k, ordinary)))
  {
    BrighterRatio(beams, k, ordinary, f, beams[k].o.v, beams[k].e.v);
    SignedOfProduct(beams[k].Ratio(), f, signs[k], if ordinary then 1 else -1);
  }

  lemma {:induction false} SwapFactor(a: real, b: real, c: real)
    ensures Times(Times(a, b), c) == Times(Times(a, c), b) && Times(a, Times(b, c)) == Times(Times(a, b), c)
  {}

  /** Making one beam brighter multiplies the signed product by its factor, or divides it. */
  lemma {:induction false} BrighterProduct(beams: seq<Beams>, signs: seq<int>, k: nat, ordinary: bool, f: real, j: nat)
    requires AllUsable(beams) && IsVector(signs) && k < 4 && f > 0.0 && j <= 4
    ensures AllUsable(Brighter(beams, k, ordinary, f))
    ensures SignedProductOf(Brighter(beams, k, ordinary, f), signs, j)
         == if j <= k then SignedProductOf(beams, signs, j)
            else Times(SignedProductOf(beams, signs, j), Signed(f, Entering(signs, k, ordinary)))
    decreases j
  {
    BrighterFactor(beams, signs, k, ordinary, f);
    if j > 0 {
      BrighterProduct(beams, signs, k, ordinary, f, j - 1);
      SwapFactor(SignedProductOf(beams, signs, j - 1), Signed(beams[j - 1].Ratio(), signs[j - 1]),
                 Signed(f, Entering(signs, k, ordinary)));
      SwapFactor(SignedProductOf(beams, signs, j - 1), Signed(f, Entering(signs, k, ordinary)),
                 Signed(beams[j - 1].Ratio(), signs[j - 1]));
    }
  }

  lemma {:induction false} FourthOfSigned(m: real, t: int, f: real)
    requires m > 0.0 && IsSign(t) && f == Fourth(m)
    ensures f > 0.0 && Signed(m, t) > 0.0 && Fourth(Signed(m, t)) == Signed(f, t)
  {
    FourthPositive(m);
    if t == -1 {
      var n := 1.0 / m;
      assert n * m == 1.0;
      SignOfFactor(n, m);
      FourthOfProduct(n, m);
      assert Fourth(1.0) == 1.0;
      assert Fourth(n) * f == 1.0;
    }
  }

  lemma {:induction false} RootTimes(root: real, q: real, s: real, f: real)
    requires root > 0.0 && q > 0.0 && Fourth(root) == s && Fourth(q) == f
    ensures root * q > 0.0 && Fourth(root * q) == Times(s, f)
  {
    FourthOfProduct(root, q);
    PositiveProduct(root, q, root * q);
  }

  lemma {:induction false} BrighterRoot(root: real, beams: seq<Beams>, signs: seq<int>, k: nat, ordinary: bool, m: real, f: real)
    requires AllUsable(beams) && IsVector(signs) && IsRoot(root, beams, signs) && k < 4 && m > 0.0 && f == Fourth(m)
    ensures f > 0.0 && AllUsable(Brighter(beams, k, ordinary, f))
    ensures IsRoot(root * Signed(m, Entering(signs, k, ordinary)), Brighter(beams, k, ordinary, f), signs)
  {
    var t := Entering(signs, k, ordinary);
    FourthOfSigned(m, t, f);
    RootTimes(root, Signed(m, t), SignedProductOf(beams, signs, 4), Signed(f, t));
    BrighterProduct(beams, signs, k, ordinary, f, 4);
  }

  /** after - before is the effect of the beam going from x to f x, up to a factor between 1 and 1 / f. */
  ghost predicate Responds(before: Num, after: Num, root: real, sign: int, x: real, f: real)
    requires root > 0.0 && x > 0.0
  {
    before.Val? && after.Val? && exists d :: NearOne(d, f) && after.v - before.v == Effect(root, sign, x, x * f, d)
  }

  lemma {:induction false} OtherRoot(root: real, other: real, beams: seq<Beams>, signs: seq<int>, k: nat, ordinary: bool,
                                     m: real, f: real)
    requires AllUsable(beams) && IsVector(signs) && IsRoot(root, beams, signs) && k < 4 && m > 0.0 && f == Fourth(m)
    requires AllUsable(Brighter(beams, k, ordinary, f)) && IsRoot(other, Brighter(beams, k, ordinary, f), signs)
    ensures other == root * Signed(m, Entering(signs, k, ordinary))
  {
    BrighterRoot(root, beams, signs, k, ordinary, m, f);
    FourthRootUnique(other, root * Signed(m, Entering(signs, k, ordinary)));
  }

  lemma {:induction false} EstimateResponds(root: real, other: real, beams: seq<Beams>, signs: seq<int>, k: nat, ordinary: bool,
                                            m: real, f: real)
    requires AllUsable(beams) && IsVector(signs) && IsRoot(root, beams, signs) && k < 4 && m > 0.0 && f == Fourth(m)
    requires AllUsable(Brighter(beams, k, ordinary, f)) && IsRoot(other, Brighter(beams, k, ordinary, f), signs)
    ensures Responds(Val(Combination(root)), Val(Combination(other)), root, Entering(signs, k, ordinary),
                     BeamOf(beams, k, ordinary), f)
  {
    OtherRoot(root, other, beams, signs, k, ordinary, m, f);
    var t, x := Entering(signs, k, ordinary), BeamOf(beams, k, ordinary);
    var d := RootResponse(root, other, t, m, f, x);
    RespondsBy(Combination(root), Combination(other), root, t, x, f, d);
  }

  lemma {:induction false} RespondsBy(before: real, after: real, root: real, sign: int, x: real, f: real, d: real)
    requires root > 0.0 && x > 0.0 && NearOne(d, f) && after - before == Effect(root, sign, x, x * f, d)
    ensures Responds(Val(before), Val(after), root, sign, x, f)
  {}

  /** The gains are the partial derivatives of the three results: when one beam is multiplied by any f, each result changes
      by its gain for that beam times the change of the beam, up to a factor between 1 and 1 / f. (f is given by its root m.) */
  lemma {:induction false} ResultsRespond(beams: seq<Beams>, model: SignModel, roots: Roots, others: Roots, k: nat, ordinary: bool,
                                          m: real, f: real)
    requires model.HasSigns() && roots.Positive() && others.Positive() && AllUsable(beams) && RootsOf(roots, beams, model)
    requires k < 4 && m > 0.0 && f == Fourth(m)
    requires AllUsable(Brighter(beams, k, ordinary, f)) && RootsOf(others, Brighter(beams, k, ordinary, f), model)
    ensures var (before, after) := (Demodulated(beams, model, roots),
                                    Demodulated(Brighter(beams, k, ordinary, f), model, others));
      var x := BeamOf(beams, k, ordinary);
      && Responds(before.polarization, after.polarization, roots.science, Entering(model.OutputScience(), k, ordinary), x, f)
      && Responds(before.null1, after.null1, roots.null1, Entering(model.null1, k, ordinary), x, f)
      && Responds(before.null2, after.null2, roots.null2, Entering(model.null2, k, ordinary), x, f)
  {
    OutputHasSigns(model);
    EstimateResponds(roots.science, others.science, beams, model.OutputScience(), k, ordinary, m, f);
    EstimateResponds(roots.null1, others.null1, beams, model.null1, k, ordinary, m, f);
    EstimateResponds(roots.null2, others.null2, beams, model.null2, k, ordinary, m, f);
  }

  // --------------------------------------------------------------------- reported errors

  predicate AllFinite(beams: seq<Beams>)
    requires |beams| == 4
  {
    && beams[0].vo.Val? && beams[0].ve.Val? && beams[1].vo.Val? && beams[1].ve.Val?
    && beams[2].vo.Val? && beams[2].ve.Val? && beams[3].vo.Val? && beams[3].ve.Val?
  }

  /** What exposure k carries into the covariance of two results: the variance of each of its beams times both gains. */
  function Carried(b: Beams, r: real, s: int, q: real, t: int): real
    requires b.Usable() && b.vo.Val? && b.ve.Val? && r > 0.0 && q > 0.0
  {
    Gain(r, s, b.o.v) * Gain(q, t, b.o.v) * b.vo.v + Gain(r, -s, b.e.v) * Gain(q, -t, b.e.v) * b.ve.v
  }

  /** The covariance of two results by first-order propagation of the eight independent beam variances. */
  function Propagated(beams: seq<Beams>, r: real, f: seq<int>, q: real, g: seq<int>): real
    requires |beams| == 4 && Usable(beams) && AllFinite(beams) && r > 0.0 && q > 0.0 && |f| == 4 && |g| == 4
  {
    Carried(beams[0], r, f[0], q, g[0]) + Carried(beams[1], r, f[1], q, g[1])
    + Carried(beams[2], r, f[2], q, g[2]) + Carried(beams[3], r, f[3], q, g[3])
  }

  lemma {:induction false} GainPair(a: real, b: real, s: int, t: int, x: real, v: real, ga: real, gb: real, u: real)
    requires x > 0.0 && u == 1.0 / x && ga == s as real * a / (4.0 * x) && gb == t as real * b / (4.0 * x)
    ensures x * x > 0.0 && ga * gb * v == a * b * (v / (x * x)) * (s * t) as real / 16.0
  {
    PositiveProduct(x, x, x * x);
    assert u * x == 1.0;
    assert ga == s as real * a * u / 4.0 && gb == t as real * b * u / 4.0;
    var w := v / (x * x);
    assert w * (x * x) == v;
    assert (x * x) * (u * u) == (u * x) * (u * x) == 1.0;
    assert w == w * ((x * x) * (u * u)) == v * (u * u);
    assert (s * t) as real == s as real * t as real;
    assert ga * gb * v == (s as real * t as real) * (a * b) * (v * (u * u)) / 16.0;
  }

  lemma {:induction false} CarriedIs(b: Beams, r: real, s: int, q: real, t: int, a: real, c: real)
    returns (term: real)
    requires b.Usable() && b.vo.Val? && b.ve.Val? && r > 0.0 && q > 0.0 && a == Slope(r) && c == Slope(q)
    ensures b.LogVariance().Val? && term == b.LogVariance().v * (s * t) as real
    ensures 16.0 * Carried(b, r, s, q, t) == Times(a * c, term)
  {
    term := b.LogVariance().v * (s * t) as real;
    var o, e := b.o.v, b.e.v;
    GainPair(a, c, s, t, o, b.vo.v, Gain(r, s, o), Gain(q, t, o), 1.0 / o);
    GainPair(a, c, -s, -t, e, b.ve.v, Gain(r, -s, e), Gain(q, -t, e), 1.0 / e);
    assert (-s) * (-t) == s * t;
    Gathered(a * c, b.vo.v / (o * o), b.ve.v / (e * e), (s * t) as real);
  }

  lemma {:induction false} Gathered(k: real, x: real, y: real, w: real)
    ensures 16.0 * (k * x * w / 16.0 + k * y * w / 16.0) == Times(k, (x + y) * w)
  {}

  lemma {:induction false} FourCarried(k: real, x0: real, x1: real, x2: real, x3: real, total: real)
    requires 16.0 * total == Times(k, x0) + Times(k, x1) + Times(k, x2) + Times(k, x3)
    ensures total == Times(k, (x0 + x1 + x2 + x3) / 16.0)
  {}

  ghost function Entry(v: seq<real>, f: seq<int>, g: seq<int>, a: real, c: real): real
    requires |v| == 4 && |f| == 4 && |g| == 4
  {
    a * c * LogCovariance(v, f, g)
  }

  lemma {:induction false} EntriesOf(v: seq<real>, f: seq<int>, g: seq<int>, h: seq<int>, a: real, b: real, c: real)
    requires |v| == 4 && |f| == 4 && |g| == 4 && |h| == 4
    ensures ErrorMatrix(v, f, g, h, a, b, c)
         == Matrix3(Entry(v, f, f, a, a), Entry(v, g, g, b, b), Entry(v, h, h, c, c),
                    Entry(v, f, g, a, b), Entry(v, f, h, a, c), Entry(v, g, h, b, c))
  {}

  lemma {:induction false} PropagatedIs(beams: seq<Beams>, r: real, f: seq<int>, q: real, g: seq<int>, a: real, c: real)
    requires |beams| == 4 && Usable(beams) && AllFinite(beams) && r > 0.0 && q > 0.0 && |f| == 4 && |g| == 4
    requires a == Slope(r) && c == Slope(q)
    ensures HasVariances(beams) && Propagated(beams, r, f, q, g) == Entry(LogVariances(beams), f, g, a, c)
  {
    var t0 := CarriedIs(beams[0], r, f[0], q, g[0], a, c);
    var t1 := CarriedIs(beams[1], r, f[1], q, g[1], a, c);
    var t2 := CarriedIs(beams[2], r, f[2], q, g[2], a, c);
    var t3 := CarriedIs(beams[3], r, f[3], q, g[3], a, c);
    FourCarried(a * c, t0, t1, t2, t3, Propagated(beams, r, f, q, g));
    assert LogCovariance(LogVariances(beams), f, g) == (t0 + t1 + t2 + t3) / 16.0;
  }

  lemma {:induction false} MatrixIsPropagated(beams: seq<Beams>, model: SignModel, roots: Roots, a: real, b: real, c: real)
    requires |beams| == 4 && model.HasSigns() && roots.Positive() && Usable(beams) && AllFinite(beams)
    requires a == Slope(roots.science) && b == Slope(roots.null1) && c == Slope(roots.null2)
    ensures var (f, g, h) := (model.OutputScience(), model.null1, model.null2);
      HasVariances(beams) && SampleErrors(beams, model, roots)
         == Matrix3(Propagated(beams, roots.science, f, roots.science, f), Propagated(beams, roots.null1, g, roots.null1, g),
                    Propagated(beams, roots.null2, h, roots.null2, h), Propagated(beams, roots.science, f, roots.null1, g),
                    Propagated(beams, roots.science, f, roots.null2, h), Propagated(beams, roots.null1, g, roots.null2, h))
  {
    var f, g, h := model.OutputScience(), model.null1, model.null2;
    PropagatedIs(beams, roots.science, f, roots.science, f, a, a);
    PropagatedIs(beams, roots.null1, g, roots.null1, g, b, b);
    PropagatedIs(beams, roots.null2, h, roots.null2, h, c, c);
    PropagatedIs(beams, roots.science, f, roots.null1, g, a, b);
    PropagatedIs(beams, roots.science, f, roots.null2, h, a, c);
    PropagatedIs(beams, roots.null1, g, roots.null2, h, b, c);
    EntriesOf(LogVariances(beams), f, g, h, a, b, c);
  }

  /** From usable beams the six errors are reported exactly when all eight variances are finite, and then they are the
      beam variances propagated through the gains, with the sign vectors of the two results. */
  lemma {:induction false} ErrorsArePropagated(beams: seq<Beams>, model: SignModel, roots: Roots)
    requires |beams| == 4 && model.HasSigns() && roots.Positive() && Usable(beams) && NonNegativeVariances(beams)
    ensures var (s, f, g, h) := (Demodulated(beams, model, roots), model.OutputScience(), model.null1, model.null2);
      && (AllFinite(beams) ==>
            && s.varianceP == Val(Propagated(beams, roots.science, f, roots.science, f))
            && s.variance1 == Val(Propagated(beams, roots.null1, g, roots.null1, g))
            && s.variance2 == Val(Propagated(beams, roots.null2, h, roots.null2, h))
            && s.c01 == Val(Propagated(beams, roots.science, f, roots.null1, g))
            && s.c02 == Val(Propagated(beams, roots.science, f, roots.null2, h))
            && s.c12 == Val(Propagated(beams, roots.null1, g, roots.null2, h)))
      && (!AllFinite(beams) ==> s.varianceP == s.variance1 == s.variance2 == s.c01 == s.c02 == s.c12 == Missing)
  {
    if AllFinite(beams) {
      MatrixIsPropagated(beams, model, roots, Slope(roots.science), Slope(roots.null1), Slope(roots.null2));
      SampleErrorsArePsd(beams, model, roots);
    }
  }

  // -------------------------------------------------------------------------- intensity

  /** What exposure k carries into the variance of the intensity: its two beam variances at the gain 1 / 4, and nothing when
      one of them is not finite. */
  function CarriedIntensity(b: Beams): real {
    if b.vo.Val? && b.ve.Val? then 0.25 * 0.25 * b.vo.v + 0.25 * 0.25 * b.ve.v else 0.0
  }

  predicate FiniteBeam(b: Beams) { b.o.Val? && b.e.Val? }

  /** An intensity is reported exactly when all eight beams are finite. It changes by a quarter of the change of any beam, and
      its variance is the beam variances propagated through that gain. */
  lemma {:induction false} IntensityResponds(beams: seq<Beams>, model: SignModel, roots: Roots, k: nat, x: real)
    requires |beams| == 4 && model.HasSigns() && roots.Positive() && NonNegativeVariances(beams) && k < 4
    ensures Demodulated(beams, model, roots).intensity.Val? <==> forall j :: 0 <= j < 4 ==> FiniteBeam(beams[j])
    ensures Demodulated(beams, model, roots).intensity.Val? ==>
      var s := Demodulated(beams, model, roots);
      && Intensity(beams[k := beams[k].(o := Val(x))]) == Val(s.intensity.v + 0.25 * (x - beams[k].o.v))
      && Intensity(beams[k := beams[k].(e := Val(x))]) == Val(s.intensity.v + 0.25 * (x - beams[k].e.v))
      && s.varianceI == Val(CarriedIntensity(beams[0]) + CarriedIntensity(beams[1]) + CarriedIntensity(beams[2])
                            + CarriedIntensity(beams[3]))
  {
    FiniteBeams(beams);
    if HasIntensity(beams) {
      ShiftedIntensity(beams, k, x);
      CarriedIntensities(beams);
    }
  }

  lemma {:induction false} FiniteBeams(beams: seq<Beams>)
    requires |beams| == 4
    ensures HasIntensity(beams) <==> forall j :: 0 <= j < 4 ==> FiniteBeam(beams[j])
  {}

  lemma {:induction false} ShiftedIntensity(beams: seq<Beams>, k: nat, x: real)
    requires |beams| == 4 && HasIntensity(beams) && k < 4
    ensures Intensity(beams[k := beams[k].(o := Val(x))]) == Val(Intensity(beams).v + 0.25 * (x - beams[k].o.v))
    ensures Intensity(beams[k := beams[k].(e := Val(x))]) == Val(Intensity(beams).v + 0.25 * (x - beams[k].e.v))
  {}

  lemma {:induction false} CarriedIntensities(beams: seq<Beams>)
    requires |beams| == 4 && HasIntensity(beams) && NonNegativeVariances(beams)
    ensures IntensityVariance(beams) == Val(CarriedIntensity(beams[0]) + CarriedIntensity(beams[1]) + CarriedIntensity(beams[2])
                                            + CarriedIntensity(beams[3]))
  {}
}
