/** Robust combination of calibration frames: median, MAD clipping and mean, tile by tile. */
module Combine {
  import opened Numeric
  import opened Sorting

  // ------------------------------------------------------------------------ medians

  predicate AtMost(a: real, b: real) { a <= b }

  function Sort(s: seq<real>): (r: seq<real>)
    ensures |r| == |s|
  {
    SortBy(s, AtMost)
  }

  ghost predicate Sorted(s: seq<real>) { forall i, j :: 0 <= i <= j < |s| ==> s[i] <= s[j] }

  /** Middle value, or the mean of the two middle values. */
  function Median(s: seq<real>): real
    requires s != []
  {
    var t := Sort(s);
    (t[(|t| - 1) / 2] + t[|t| / 2]) / 2.0
  }

  /** How many values lie in [a, b]. */
  function CountIn(s: seq<real>, a: real, b: real): (n: nat)
    ensures n <= |s|
  {
    if s == [] then 0 else (if a <= s[0] <= b then 1 else 0) + CountIn(s[1..], a, b)
  }

  lemma {:induction false} InsertCount(x: real, s: seq<real>, a: real, b: real)
    ensures CountIn(Insert(x, s, AtMost), a, b) == CountIn([x], a, b) + CountIn(s, a, b)
  {
    if s == [] || x <= s[0] {
      CountSplit([x], s, a, b);
    } else {
      InsertCount(x, s[1..], a, b);
      CountSplit([s[0]], Insert(x, s[1..], AtMost), a, b);
    }
  }

  lemma {:induction false} CountSplit(s: seq<real>, t: seq<real>, a: real, b: real)
    ensures CountIn(s + t, a, b) == CountIn(s, a, b) + CountIn(t, a, b)
  {
    if s == [] {
      assert s + t == t;
    } else {
      CountSplit(s[1..], t, a, b);
      assert (s + t)[1..] == s[1..] + t;
    }
  }

  lemma {:induction false} SortCount(s: seq<real>, a: real, b: real)
    ensures CountIn(Sort(s), a, b) == CountIn(s, a, b)
  {
    if s != [] {
      SortCount(s[1..], a, b);
      InsertCount(s[0], Sort(s[1..]), a, b);
      CountSplit([s[0]], s[1..], a, b);
      assert [s[0]] + s[1..] == s;
    }
  }

  /** Sorting orders the values and keeps how many lie in any interval. */
  lemma {:induction false} SortIsOrdered(s: seq<real>, a: real, b: real)
    ensures Sorted(Sort(s)) && CountIn(Sort(s), a, b) == CountIn(s, a, b)
  {
    SortCount(s, a, b);
    SortIsSorted(s, AtMost);
    assert forall i, j :: 0 <= i < j < |s| ==> AtMost(Sort(s)[i], Sort(s)[j]);
  }

  lemma {:induction false} CountNone(s: seq<real>, a: real, b: real)
    requires forall i :: 0 <= i < |s| ==> !(a <= s[i] <= b)
    ensures CountIn(s, a, b) == 0
  {
    if s != [] {
      CountNone(s[1..], a, b);
    }
  }

  lemma {:induction false} CountAll(s: seq<real>, a: real, b: real)
    requires forall i :: 0 <= i < |s| ==> a <= s[i] <= b
    ensures CountIn(s, a, b) == |s|
  {
    if s != [] {
      CountAll(s[1..], a, b);
    }
  }

  lemma {:induction false} CountCut(t: seq<real>, k: nat, a: real, b: real)
    requires k <= |t|
    ensures CountIn(t, a, b) == CountIn(t[..k], a, b) + CountIn(t[k..], a, b)
  {
    CountSplit(t[..k], t[k..], a, b);
    assert t[..k] + t[k..] == t;
  }

  /** The median lies in every interval that holds more than half of the values. */
  lemma {:induction false} MedianInMajority(s: seq<real>, a: real, b: real)
    requires s != [] && 2 * CountIn(s, a, b) > |s|
    ensures a <= Median(s) <= b
  {
    var t, n := Sort(s), |s|;
    SortIsOrdered(s, a, b);
    var low, high := (n - 1) / 2, n / 2;
    if t[low] < a {
      CountCut(t, low + 1, a, b);
      CountNone(t[..low + 1], a, b);
    }
    if b < t[high] {
      CountCut(t, high, a, b);
      CountNone(t[high..], a, b);
    }
    assert a <= t[low] <= t[high] <= b;
  }

  /** At least half of the values are at most the median. */
  lemma {:induction false} HalfBelowMedian(s: seq<real>, a: real)
    requires s != [] && forall i :: 0 <= i < |s| ==> a <= s[i]
    ensures CountIn(s, a, Median(s)) >= (|s| - 1) / 2 + 1
  {
    var t, n := Sort(s), |s|;
    SortIsOrdered(s, a, Median(s));
    SortMembers(s);
    var low := (n - 1) / 2;
    CountCut(t, low + 1, a, Median(s));
    forall i | 0 <= i < low + 1
      ensures a <= t[i] <= Median(s)
    {
      assert t[i] in t;
      assert t[i] <= t[low] <= t[n / 2];
    }
    CountAll(t[..low + 1], a, Median(s));
  }

  lemma {:induction false} SortMembers(s: seq<real>)
    ensures forall y :: y in Sort(s) ==> y in s
  {
    SameMembers(s, Sort(s));
  }

  // --------------------------------------------------------------------- one pixel

  /** The finite values among the frames. */
  function FiniteValues(s: seq<Num>): (r: seq<real>)
    ensures |r| <= |s|
    ensures (forall i :: 0 <= i < |s| ==> s[i].Val?) ==> |r| == |s|
  {
    if s == [] then [] else (if s[0].Val? then [s[0].v] else []) + FiniteValues(s[1..])
  }

  function Deviations(s: seq<real>, c: real): seq<real> {
    seq(|s|, i requires 0 <= i < |s| => Abs(s[i] - c))
  }

  /** Median absolute deviation. */
  function Mad(s: seq<real>): real
    requires s != []
  {
    Median(Deviations(s, Median(s)))
  }

  /** Scale of the clipping: the robust standard deviation, at least the read noise, or 1 when both vanish. */
  function Scale(s: seq<real>, readNoise: real): real
    requires s != []
  {
    var sigma := Max(1.4826 * Mad(s), readNoise);
    if sigma > 0.0 then sigma else 1.0
  }

  /** The values within the limit of the centre. */
  function Accepted(s: seq<real>, c: real, limit: real): (r: seq<real>)
    ensures forall y :: y in r ==> Abs(y - c) <= limit
  {
    if s == [] then [] else (if Abs(s[0] - c) <= limit then [s[0]] else []) + Accepted(s[1..], c, limit)
  }

  function Clipped(s: seq<real>, readNoise: real): seq<real> {
    if s == [] then [] else Accepted(s, Median(s), 5.0 * Scale(s, readNoise))
  }

  function Total(s: seq<real>): real { if s == [] then 0.0 else s[0] + Total(s[1..]) }

  function Mean(s: seq<real>): real
    requires s != []
  {
    Total(s) / |s| as real
  }

  function Square(x: real): real { x * x }

  function SquaredDeviations(s: seq<real>, c: real): real {
    if s == [] then 0.0 else Square(s[0] - c) + SquaredDeviations(s[1..], c)
  }

  /** What the combination of `frames` samples gives at a pixel. */
  datatype Pixel = Pixel(data: Num, variance: Num, dq: Quality)

  /** Sample variance of the kept values over their number; infinite without a degree of freedom. */
  function MeanVariance(kept: seq<real>, ddof: int): Num
    requires 0 <= ddof
  {
    if |kept| > ddof
    then Val(SquaredDeviations(kept, Mean(kept)) / (|kept| - ddof) as real / |kept| as real)
    else Missing
  }

  function MinimumCount(frames: nat): nat { if frames / 2 < 1 then 1 else frames / 2 }

  function CombinePixel(samples: seq<Num>, readNoise: real): Pixel {
    var kept := Clipped(FiniteValues(samples), readNoise);
    Pixel(if kept == [] then Missing else Val(Mean(kept)),
          MeanVariance(kept, if |samples| > 1 then 1 else 0),
          if |kept| < MinimumCount(|samples|) then {BAD_PIXEL} else {})
  }

  // ----------------------------------------------------------------------- survivors

  lemma {:induction false} AcceptedCount(s: seq<real>, c: real, limit: real)
    ensures |Accepted(s, c, limit)| == CountIn(Deviations(s, c), 0.0, limit)
  {
    if s != [] {
      AcceptedCount(s[1..], c, limit);
      assert Deviations(s, c)[1..] == Deviations(s[1..], c);
    }
  }

  lemma {:induction false} CountMonotone(s: seq<real>, a: real, b: real, c: real)
    requires b <= c
    ensures CountIn(s, a, b) <= CountIn(s, a, c)
  {
    if s != [] {
      CountMonotone(s[1..], a, b, c);
    }
  }

  lemma {:induction false} MadIsNonNegative(s: seq<real>)
    requires s != []
    ensures Mad(s) >= 0.0
  {
    var d := Deviations(s, Median(s));
    HalfBelowMedian(d, 0.0);
    if Mad(s) < 0.0 {
      CountNone(d, 0.0, Mad(s));
    }
  }

  lemma {:induction false} ScaleIsWide(s: seq<real>, readNoise: real)
    requires s != []
    ensures Scale(s, readNoise) > 0.0 && Mad(s) <= 5.0 * Scale(s, readNoise)
  {
    MadIsNonNegative(s);
  }

  /** Clipping never drops more than half of the finite values. */
  lemma {:induction false} HalfSurvives(s: seq<real>, readNoise: real)
    requires s != []
    ensures |Clipped(s, readNoise)| >= (|s| - 1) / 2 + 1
  {
    var c, d := Median(s), Deviations(s, Median(s));
    var limit := 5.0 * Scale(s, readNoise);
    AcceptedCount(s, c, limit);
    HalfBelowMedian(d, 0.0);
    ScaleIsWide(s, readNoise);
    CountMonotone(d, 0.0, Mad(s), limit);
  }

  /** With finite samples only, the result is finite and the bad-pixel bit is never set. */
  lemma {:induction false} FiniteFramesAreGood(samples: seq<Num>, readNoise: real)
    requires samples != [] && forall i :: 0 <= i < |samples| ==> samples[i].Val?
    ensures CombinePixel(samples, readNoise).data.Val? && CombinePixel(samples, readNoise).dq == {}
  {
    HalfSurvives(FiniteValues(samples), readNoise);
  }

  /** With f finite of n samples, a result exists exactly when f > 0, and the bit can only be set when fewer than
      n - 1 of them are finite. */
  lemma {:induction false} BadOnlyIfMissing(samples: seq<Num>, readNoise: real)
    requires samples != []
    ensures CombinePixel(samples, readNoise).data.Val? <==> FiniteValues(samples) != []
    ensures CombinePixel(samples, readNoise).dq != {} ==>
      |FiniteValues(samples)| == 0 || |FiniteValues(samples)| < |samples| - 1
  {
    if FiniteValues(samples) != [] {
      HalfSurvives(FiniteValues(samples), readNoise);
    }
  }

  // ----------------------------------------------------------------------- breakdown

  lemma {:induction false} TotalBetween(s: seq<real>, low: real, high: real)
    requires forall y :: y in s ==> low <= y <= high
    ensures Copies(|s|, low) <= Total(s) <= Copies(|s|, high)
  {
    if s != [] {
      assert s[0] in s && forall y :: y in s[1..] ==> y in s;
      TotalBetween(s[1..], low, high);
      OneMore(|s[1..]|, low);
      OneMore(|s[1..]|, high);
    }
  }

  /** n copies of x added up. */
  function Copies(n: int, x: real): real { n as real * x }

  lemma {:induction false} OneMore(n: int, x: real)
    ensures Copies(n + 1, x) == Copies(n, x) + x
  {}

  lemma {:induction false} MeanIs(s: seq<real>)
    requires s != []
    ensures Copies(|s|, Mean(s)) == Total(s)
  {
    var n, m := |s| as real, Mean(s);
    assert n * m == Total(s);
  }

  lemma {:induction false} CopiesLe(n: int, x: real, y: real)
    requires n > 0 && Copies(n, x) <= Copies(n, y)
    ensures x <= y
  {
    var m := n as real;
    if y < x {
      PositiveProduct(m, x - y, m * (x - y));
    }
  }

  lemma {:induction false} MeanBetween(s: seq<real>, low: real, high: real)
    requires s != [] && forall y :: y in s ==> low <= y <= high
    ensures low <= Mean(s) <= high
  {
    TotalBetween(s, low, high);
    MeanIs(s);
    CopiesLe(|s|, low, Mean(s));
    CopiesLe(|s|, Mean(s), high);
  }

  /** The combined value of finite samples. */
  function Combined(s: seq<real>, readNoise: real): real
    requires s != []
  {
    HalfSurvives(s, readNoise);
    Mean(Clipped(s, readNoise))
  }

  predicate WithinOf(x: real, a: real, b: real, distance: real) { a - distance <= x <= b + distance }

  ghost predicate Majority(s: seq<real>, a: real, b: real) { 2 * CountIn(s, a, b) > |s| }

  lemma {:induction false} DeviationsOfMajority(s: seq<real>, a: real, b: real, c: real)
    requires a <= c <= b
    ensures CountIn(Deviations(s, c), 0.0, b - a) >= CountIn(s, a, b)
  {
    if s != [] {
      DeviationsOfMajority(s[1..], a, b, c);
      assert Deviations(s, c)[1..] == Deviations(s[1..], c);
    }
  }

  /** When more than half of the finite values lie in [a, b], the median does, the MAD is at most b - a, and the combined
      value is within five times the scale of [a, b]. */
  lemma {:induction false} FiniteBreakdown(s: seq<real>, a: real, b: real, readNoise: real)
    requires s != [] && Majority(s, a, b)
    ensures a <= Median(s) <= b && Mad(s) <= b - a
    ensures WithinOf(Combined(s, readNoise), a, b, 5.0 * Scale(s, readNoise))
  {
    MedianInMajority(s, a, b);
    var c := Median(s);
    DeviationsOfMajority(s, a, b, c);
    MedianInMajority(Deviations(s, c), 0.0, b - a);
    var limit := 5.0 * Scale(s, readNoise);
    HalfSurvives(s, readNoise);
    MeanBetween(Clipped(s, readNoise), c - limit, c + limit);
  }

  /** How many frames have a value in [a, b]. */
  function FramesIn(samples: seq<Num>, a: real, b: real): (n: nat)
    ensures n <= |samples|
  {
    if samples == [] then 0
    else (if samples[0].Val? && a <= samples[0].v <= b then 1 else 0) + FramesIn(samples[1..], a, b)
  }

  /** A majority of the frames has a value in [a, b]. */
  ghost predicate FramesAgree(samples: seq<Num>, a: real, b: real) { 2 * FramesIn(samples, a, b) > |samples| }

  lemma {:induction false} FramesInFinite(samples: seq<Num>, a: real, b: real)
    ensures CountIn(FiniteValues(samples), a, b) == FramesIn(samples, a, b)
  {
    if samples != [] {
      FramesInFinite(samples[1..], a, b);
      var head := if samples[0].Val? then [samples[0].v] else [];
      CountSplit(head, FiniteValues(samples[1..]), a, b);
    }
  }

  /** Breakdown bound: when more than half of the frames have a value in [a, b], the pixel has a value, and it is within
      five times the scale of [a, b], whatever the other frames hold, missing values included; the scale is at most that of
      the interval, unless it falls back to 1. */
  lemma {:induction false} BreakdownBound(samples: seq<Num>, a: real, b: real, readNoise: real)
    requires FramesAgree(samples, a, b)
    ensures FiniteValues(samples) != [] && CombinePixel(samples, readNoise).data.Val?
    ensures WithinOf(CombinePixel(samples, readNoise).data.v, a, b, 5.0 * Scale(FiniteValues(samples), readNoise))
    ensures
      || Scale(FiniteValues(samples), readNoise) <= Max(1.4826 * (b - a), readNoise)
      || Scale(FiniteValues(samples), readNoise) == 1.0
  {
    var s := FiniteValues(samples);
    FramesInFinite(samples, a, b);
    HalfSurvives(s, readNoise);
    FiniteBreakdown(s, a, b, readNoise);
  }

  // --------------------------------------------------------------- variance of the mean

  /** Sum of the squared differences of all pairs. */
  ghost function PairSum(s: seq<real>): real {
    if s == [] then 0.0 else SquaredDeviations(s[1..], s[0]) + PairSum(s[1..])
  }

  ghost function Squares(s: seq<real>): real { if s == [] then 0.0 else Square(s[0]) + Squares(s[1..]) }

  ghost function Cross(c: real, t: real): real { 2.0 * c * t }

  lemma {:induction false} DeviationsAbout(s: seq<real>, c: real)
    ensures SquaredDeviations(s, c) == Squares(s) - Cross(c, Total(s)) + Copies(|s|, Square(c))
  {
    if s != [] {
      var r := s[1..];
      DeviationsAbout(r, c);
      DeviationStep(|r|, s[0], c, Squares(r), Total(r), SquaredDeviations(r, c), Total(s));
    }
  }

  lemma {:induction false} DeviationStep(n: int, x: real, c: real, q: real, t: real, d: real, total: real)
    requires d == q - Cross(c, t) + Copies(n, Square(c)) && total == x + t
    ensures Square(x - c) + d == Square(x) + q - Cross(c, total) + Copies(n + 1, Square(c))
  {
    Expanded(x, c, t);
    OneMore(n, Square(c));
  }

  lemma {:induction false} Expanded(x: real, c: real, t: real)
    ensures Square(x - c) - Cross(c, t) == Square(x) - Cross(c, x + t) + Square(c)
  {}

  lemma {:induction false} PairsBySums(s: seq<real>)
    ensures PairSum(s) == Copies(|s|, Squares(s)) - Square(Total(s))
  {
    if s != [] {
      var r := s[1..];
      PairsBySums(r);
      DeviationsAbout(r, s[0]);
      PairAlgebra(|r|, s[0], Squares(r), Total(r), SquaredDeviations(r, s[0]), PairSum(r), Squares(s), Total(s));
    }
  }

  lemma {:induction false} PairAlgebra(n: int, x: real, q: real, t: real, d: real, p: real, squares: real, total: real)
    requires d == q - Cross(x, t) + Copies(n, Square(x)) && p == Copies(n, q) - Square(t)
    requires squares == Square(x) + q && total == x + t
    ensures d + p == Copies(n + 1, squares) - Square(total)
  {
    OneMore(n, squares);
    SplitCopies(n, Square(x), q, squares);
  }

  lemma {:induction false} SplitCopies(n: int, a: real, b: real, c: real)
    requires c == a + b
    ensures Copies(n, c) == Copies(n, a) + Copies(n, b)
  {}

  lemma {:induction false} DeviationsByPairs(s: seq<real>)
    requires s != []
    ensures Copies(|s|, SquaredDeviations(s, Mean(s))) == PairSum(s)
  {
    MeanIs(s);
    DeviationsAbout(s, Mean(s));
    PairsBySums(s);
    MeanAlgebra(|s|, Mean(s), Squares(s), Total(s), SquaredDeviations(s, Mean(s)));
  }

  lemma {:induction false} MeanAlgebra(n: int, m: real, q: real, t: real, d: real)
    requires Copies(n, m) == t && d == q - Cross(m, t) + Copies(n, Square(m))
    ensures Copies(n, d) == Copies(n, q) - Square(t)
  {
    var k := n as real;
    assert k * (m * t) == t * t;
    assert k * (k * (m * m)) == t * t;
    assert k * d == k * q - 2.0 * (k * (m * t)) + k * (k * (m * m));
  }

  /** The reported variance v is the unbiased variance of the mean: n * n * (n - 1) * v is the sum of the squared
      differences of all pairs of the n kept values. */
  lemma {:induction false} VarianceByPairs(kept: seq<real>)
    requires |kept| >= 2
    ensures MeanVariance(kept, 1).Val?
    ensures Copies(|kept|, Copies(|kept|, Copies(|kept| - 1, MeanVariance(kept, 1).v))) == PairSum(kept)
  {
    DeviationsByPairs(kept);
    Undivided(SquaredDeviations(kept, Mean(kept)), |kept|, |kept| - 1, MeanVariance(kept, 1).v);
  }

  lemma {:induction false} Undivided(x: real, n: int, d: int, v: real)
    requires n > 0 && d > 0 && v == x / d as real / n as real
    ensures Copies(n, Copies(n, Copies(d, v))) == Copies(n, x)
  {
    var p := x / d as real;
    assert p * d as real == x && v * n as real == p;
    assert n as real * (d as real * v) == d as real * (v * n as real);
  }

  // ------------------------------------------------- the bound from the interval alone

  /** The scale one would expect from the interval: 1.4826 (b - a) or the read noise, or 1 when both vanish. */
  function ExpectedScale(a: real, b: real, readNoise: real): real {
    var m := Max(1.4826 * (b - a), readNoise);
    if m > 0.0 then m else 1.0
  }

  /** Values within a limit of [a, b] sum to at most the limit beyond it for each value outside. */
  lemma {:induction false} TotalAround(s: seq<real>, a: real, b: real, limit: real)
    requires limit >= 0.0 && forall y :: y in s ==> WithinOf(y, a, b, limit)
    ensures Total(s) <= Copies(|s|, b) + Copies(|s| - CountIn(s, a, b), limit)
    ensures Total(s) >= Copies(|s|, a) - Copies(|s| - CountIn(s, a, b), limit)
  {
    if s != [] {
      assert s[0] in s && forall y :: y in s[1..] ==> y in s;
      TotalAround(s[1..], a, b, limit);
      OneMore(|s[1..]|, a);
      OneMore(|s[1..]|, b);
      OneMore(|s[1..]| - CountIn(s[1..], a, b), limit);
    }
  }

  /** Clipping at a limit at least as wide as the interval keeps all values of the interval. */
  lemma {:induction false} IntervalIsKept(s: seq<real>, a: real, b: real, c: real, limit: real)
    requires a <= c <= b && b - a <= limit
    ensures CountIn(Accepted(s, c, limit), a, b) == CountIn(s, a, b)
    ensures |Accepted(s, c, limit)| <= |s|
  {
    if s != [] {
      IntervalIsKept(s[1..], a, b, c, limit);
      var head := if Abs(s[0] - c) <= limit then [s[0]] else [];
      CountSplit(head, Accepted(s[1..], c, limit), a, b);
    }
  }

  /** An excess shared by k values, of which m have none and the others at most 5, is no larger on average over n frames
      than (n - 1) / 2 times 5, when m is a majority of the frames. */
  lemma {:induction false} ShareOfOthers(k: int, m: int, n: int, d: real)
    requires 0 < m <= k <= n && 2 * m > n && Copies(k, d) <= Copies(k - m, 5.0)
    ensures Copies(n, d) <= Copies((n - 1) / 2, 5.0)
  {
    AtMostFive(k as real, m as real, d);
    RestAtMostFive(k as real, n as real, d);
    assert n - m <= (n - 1) / 2;
  }

  lemma {:induction false} AtMostFive(k: real, m: real, d: real)
    requires 0.0 < m <= k && k * d <= (k - m) * 5.0
    ensures d <= 5.0
  {
    if d > 5.0 {
      PositiveProduct(k, d - 5.0, k * (d - 5.0));
    }
  }

  lemma {:induction false} RestAtMostFive(k: real, n: real, d: real)
    requires k <= n && d <= 5.0
    ensures n * d <= k * d + (n - k) * 5.0
  {
    NonNegativeProduct(n - k, 5.0 - d, (n - k) * (5.0 - d));
  }

  lemma {:induction false} ScaledGap(k: int, mean: real, c: real, d: real)
    requires d == mean - c
    ensures Copies(k, d) == Copies(k, mean) - Copies(k, c)
  {}

  lemma {:induction false} ScaleDown(n: int, d: real, k: int, e: real)
    requires n > 0 && Copies(n, d) <= Copies(k, 5.0) && k as real <= Copies(n, e)
    ensures d <= 5.0 * e
  {
    var m := n as real;
    if d > 5.0 * e {
      PositiveProduct(m, d - 5.0 * e, m * (d - 5.0 * e));
    }
  }

  /** The mean of values within 5 of [a, b], in which a majority of n frames lies. */
  lemma {:induction false} MeanAround(s: seq<real>, a: real, b: real, n: int)
    requires s != [] && |s| <= n && 2 * CountIn(s, a, b) > n && forall y :: y in s ==> WithinOf(y, a, b, 5.0)
    ensures Copies(n, Mean(s) - b) <= Copies((n - 1) / 2, 5.0)
    ensures Copies(n, a - Mean(s)) <= Copies((n - 1) / 2, 5.0)
  {
    TotalAround(s, a, b, 5.0);
    MeanIs(s);
    ScaledGap(|s|, Mean(s), b, Mean(s) - b);
    ScaledGap(|s|, a, Mean(s), a - Mean(s));
    ShareOfOthers(|s|, CountIn(s, a, b), n, Mean(s) - b);
    ShareOfOthers(|s|, CountIn(s, a, b), n, a - Mean(s));
  }

  /** The clipped mean at the fallback scale, when the frames outside the interval are few for the width. */
  lemma {:induction false} FallbackMean(s: seq<real>, a: real, b: real, c: real, n: int, width: real)
    requires |s| <= n && 2 * CountIn(s, a, b) > n && a <= c <= b && b - a <= 5.0
    requires ((n - 1) / 2) as real <= Copies(n, width)
    ensures Accepted(s, c, 5.0) != [] && WithinOf(Mean(Accepted(s, c, 5.0)), a, b, 5.0 * width)
  {
    var kept := Accepted(s, c, 5.0);
    IntervalIsKept(s, a, b, c, 5.0);
    MeanAround(kept, a, b, n);
    ScaleDown(n, Mean(kept) - b, (n - 1) / 2, width);
    ScaleDown(n, a - Mean(kept), (n - 1) / 2, width);
  }

  lemma {:induction false} UnitScale(s: seq<real>, readNoise: real)
    requires s != [] && Mad(s) == 0.0 && readNoise <= 0.0
    ensures Scale(s, readNoise) == 1.0 && Clipped(s, readNoise) == Accepted(s, Median(s), 5.0)
  {}

  predicate ExpectedBoundHolds(n: nat, a: real, b: real, readNoise: real) {
    readNoise > 0.0 || a == b || ((n - 1) / 2) as real <= Copies(n, 1.4826 * (b - a))
  }

  lemma {:induction false} WithinLimit(x: real, m: real, a: real, b: real)
    requires a <= m <= b && WithinOf(x, a, b, 5.0) && b - a > 5.0
    ensures WithinOf(x, a, b, 5.0 * (1.4826 * (b - a)))
  {}

  lemma {:induction false} NarrowInterval(s: seq<real>, a: real, b: real, readNoise: real, n: nat, width: real)
    requires s != [] && |s| <= n && 2 * CountIn(s, a, b) > n && a < b && Mad(s) == 0.0 && readNoise <= 0.0
    requires width == 1.4826 * (b - a) && ((n - 1) / 2) as real <= Copies(n, width)
    ensures WithinOf(Combined(s, readNoise), a, b, 5.0 * width)
  {
    FiniteBreakdown(s, a, b, readNoise);
    UnitScale(s, readNoise);
    if b - a <= 5.0 {
      FallbackMean(s, a, b, Median(s), n, width);
    } else {
      WithinLimit(Combined(s, readNoise), Median(s), a, b);
    }
  }

  lemma {:induction false} FiniteExpectedBound(s: seq<real>, a: real, b: real, readNoise: real, n: nat)
    requires s != [] && |s| <= n && 2 * CountIn(s, a, b) > n && a <= b && ExpectedBoundHolds(n, a, b, readNoise)
    ensures WithinOf(Combined(s, readNoise), a, b, 5.0 * ExpectedScale(a, b, readNoise))
  {
    FiniteBreakdown(s, a, b, readNoise);
    MadIsNonNegative(s);
    if Mad(s) == 0.0 && readNoise <= 0.0 && a < b {
      NarrowInterval(s, a, b, readNoise, n, 1.4826 * (b - a));
    } else {
      assert Scale(s, readNoise) <= ExpectedScale(a, b, readNoise);
    }
  }

  /** The pixel has a value within five expected scales of the interval. */
  ghost predicate KeepsExpectedBound(samples: seq<Num>, a: real, b: real, readNoise: real) {
    && CombinePixel(samples, readNoise).data.Val?
    && WithinOf(CombinePixel(samples, readNoise).data.v, a, b, 5.0 * ExpectedScale(a, b, readNoise))
  }

  lemma {:induction false} ExpectedBound(samples: seq<Num>, a: real, b: real, readNoise: real)
    requires a <= b && FramesAgree(samples, a, b) && ExpectedBoundHolds(|samples|, a, b, readNoise)
    ensures KeepsExpectedBound(samples, a, b, readNoise)
  {
    var s := FiniteValues(samples);
    FramesInFinite(samples, a, b);
    HalfSurvives(s, readNoise);
    FiniteExpectedBound(s, a, b, readNoise, |samples|);
  }

  function Repeat(x: real, n: nat): seq<real> {
    seq(n, _ => x)
  }

  lemma {:induction false} TotalOfRepeat(x: real, n: nat)
    ensures Total(Repeat(x, n)) == Copies(n, x)
  {
    if n > 0 {
      TotalOfRepeat(x, n - 1);
      assert Repeat(x, n)[1..] == Repeat(x, n - 1);
      OneMore(n - 1, x);
    }
  }

  lemma {:induction false} TotalSplit(s: seq<real>, t: seq<real>)
    ensures Total(s + t) == Total(s) + Total(t)
  {
    if s == [] {
      assert s + t == t;
    } else {
      TotalSplit(s[1..], t);
      assert (s + t)[1..] == s[1..] + t;
    }
  }

  lemma {:induction false} AcceptAll(s: seq<real>, c: real, limit: real)
    requires forall i :: 0 <= i < |s| ==> Abs(s[i] - c) <= limit
    ensures Accepted(s, c, limit) == s
  {
    if s != [] {
      AcceptAll(s[1..], c, limit);
    }
  }

  /** A bare majority at b and the rest at b + 5: the MAD vanishes, so nothing is clipped. */
  function Outliers(n: nat, b: real): seq<real>
    requires n > 0
  {
    Repeat(b, n / 2 + 1) + Repeat(b + 5.0, (n - 1) / 2)
  }

  lemma {:induction false} OutliersAreKept(n: nat, a: real, b: real, readNoise: real)
    requires n > 0 && a <= b && readNoise <= 0.0
    ensures |Outliers(n, b)| == n && Majority(Outliers(n, b), a, b)
    ensures Clipped(Outliers(n, b), readNoise) == Outliers(n, b)
  {
    var s := Outliers(n, b);
    var m := n / 2 + 1;
    CountSplit(Repeat(b, m), Repeat(b + 5.0, (n - 1) / 2), a, b);
    CountAll(Repeat(b, m), a, b);
    CountSplit(Repeat(b, m), Repeat(b + 5.0, (n - 1) / 2), b, b);
    CountAll(Repeat(b, m), b, b);
    MedianInMajority(s, b, b);
    DeviationsOfMajority(s, b, b, b);
    MedianInMajority(Deviations(s, b), 0.0, 0.0);
    AcceptAll(s, b, 5.0);
  }

  lemma {:induction false} OutliersMean(n: nat, b: real, readNoise: real)
    requires n > 0 && readNoise <= 0.0
    ensures Copies(n, Combined(Outliers(n, b), readNoise) - b) == Copies((n - 1) / 2, 5.0)
  {
    OutliersAreKept(n, b, b, readNoise);
    var m, k := n / 2 + 1, (n - 1) / 2;
    TotalOfRepeat(b, m);
    TotalOfRepeat(b + 5.0, k);
    TotalSplit(Repeat(b, m), Repeat(b + 5.0, k));
    MeanIs(Outliers(n, b));
    SplitMean(m, k, n, b);
    ScaledGap(n, Mean(Outliers(n, b)), b, Mean(Outliers(n, b)) - b);
  }

  lemma {:induction false} SplitMean(m: int, k: int, n: int, b: real)
    requires m + k == n
    ensures Copies(m, b) + Copies(k, b + 5.0) == Copies(n, b) + Copies(k, 5.0)
  {}

  lemma {:induction false} ScaleUp(n: int, d: real, k: int, e: real)
    requires n > 0 && Copies(n, d) == Copies(k, 5.0) && k as real > Copies(n, e)
    ensures d > 5.0 * e
  {
    var m := n as real;
    if d <= 5.0 * e {
      NonNegativeProduct(m, 5.0 * e - d, m * (5.0 * e - d));
    }
  }

  function AllFinite(s: seq<real>): (samples: seq<Num>)
    ensures |samples| == |s|
  {
    seq(|s|, i requires 0 <= i < |s| => Val(s[i]))
  }

  lemma {:induction false} FiniteFrames(s: seq<real>)
    ensures FiniteValues(AllFinite(s)) == s
  {
    if s != [] {
      FiniteFrames(s[1..]);
      assert AllFinite(s)[1..] == AllFinite(s[1..]);
      assert s == [s[0]] + s[1..];
    }
  }

  lemma {:induction false} PixelOfFinite(s: seq<real>, readNoise: real)
    requires s != []
    ensures CombinePixel(AllFinite(s), readNoise).data == Val(Combined(s, readNoise))
  {
    FiniteFrames(s);
    HalfSurvives(s, readNoise);
  }

  lemma {:induction false} OutliersExceed(n: nat, b: real, readNoise: real, width: real)
    requires n > 0 && readNoise <= 0.0 && ((n - 1) / 2) as real > Copies(n, width)
    ensures Combined(Outliers(n, b), readNoise) - b > 5.0 * width
  {
    OutliersMean(n, b, readNoise);
    ScaleUp(n, Combined(Outliers(n, b), readNoise) - b, (n - 1) / 2, width);
  }

  lemma {:induction false} BeyondWidth(x: real, a: real, b: real, readNoise: real, width: real)
    requires a < b && readNoise <= 0.0 && width == 1.4826 * (b - a) && x - b > 5.0 * width
    ensures !WithinOf(x, a, b, 5.0 * ExpectedScale(a, b, readNoise))
  {}

  lemma {:induction false} OutliersAgree(n: nat, a: real, b: real)
    requires n > 0 && a <= b
    ensures |AllFinite(Outliers(n, b))| == n && FramesAgree(AllFinite(Outliers(n, b)), a, b)
  {
    OutliersAreKept(n, a, b, 0.0);
    FiniteFrames(Outliers(n, b));
    FramesInFinite(AllFinite(Outliers(n, b)), a, b);
  }

  /** Frames at which the bound fails. */
  lemma {:induction false} ExpectedBoundFails(n: nat, a: real, b: real, readNoise: real, width: real, s: seq<real>)
    requires n > 0 && a < b && readNoise <= 0.0 && width == 1.4826 * (b - a) && ((n - 1) / 2) as real > Copies(n, width)
    requires s == Outliers(n, b)
    ensures |AllFinite(s)| == n && FramesAgree(AllFinite(s), a, b) && !KeepsExpectedBound(AllFinite(s), a, b, readNoise)
  {
    OutliersAgree(n, a, b);
    OutliersExceed(n, b, readNoise, width);
    assert s != [];
    PixelOfFinite(s, readNoise);
    BeyondWidth(Combined(s, readNoise), a, b, readNoise, width);
  }

  /** The pixel always has a value within five times the expected scale of the interval in which a majority of its frames
      lies, whatever the others hold, missing values included, exactly when the read noise is positive, the interval is a
      point, or the interval is not too narrow for the number of frames: otherwise a vanishing MAD makes the code clip at 5
      instead. */
  lemma {:induction false} ExpectedBoundIff(n: nat, a: real, b: real, readNoise: real)
    requires a <= b
    ensures (forall samples: seq<Num> :: |samples| == n && FramesAgree(samples, a, b) ==>
               KeepsExpectedBound(samples, a, b, readNoise))
       <==> ExpectedBoundHolds(n, a, b, readNoise)
  {
    if ExpectedBoundHolds(n, a, b, readNoise) {
      forall samples: seq<Num> | |samples| == n && FramesAgree(samples, a, b)
        ensures KeepsExpectedBound(samples, a, b, readNoise)
      {
        ExpectedBound(samples, a, b, readNoise);
      }
    } else {
      ExpectedBoundFails(n, a, b, readNoise, 1.4826 * (b - a), Outliers(n, b));
    }
  }

  // --------------------------------------------------------------------- whole frames

  /** A two-dimensional frame. */
  datatype Frame = Frame(rows: nat, columns: nat, pixels: seq<seq<Num>>) {
    predicate Valid() { |pixels| == rows && forall r :: 0 <= r < rows ==> |pixels[r]| == columns }
  }

  ghost predicate SameShape(frames: seq<Frame>) {
    forall i :: 0 <= i < |frames| ==> frames[i].rows == frames[0].rows && frames[i].columns == frames[0].columns
  }

  ghost predicate Stackable(frames: seq<Frame>) {
    frames != [] && SameShape(frames) && forall i :: 0 <= i < |frames| ==> frames[i].Valid()
  }

  function At(frame: Frame, r: nat, c: nat): Num
    requires frame.Valid() && r < frame.rows && c < frame.columns
  {
    frame.pixels[r][c]
  }

  /** The samples of all frames at one pixel. */
  function Stack(frames: seq<Frame>, r: nat, c: nat): (s: seq<Num>)
    requires Stackable(frames) && r < frames[0].rows && c < frames[0].columns
    ensures |s| == |frames|
  {
    seq(|frames|, i requires 0 <= i < |frames| && frames[i].Valid() && r < frames[i].rows && c < frames[i].columns
                  => At(frames[i], r, c))
  }

  /** The samples of all frames along one row. */
  function StackRow(frames: seq<Frame>, r: nat): (row: seq<seq<Num>>)
    requires Stackable(frames) && r < frames[0].rows
    ensures |row| == frames[0].columns && forall c :: 0 <= c < frames[0].columns ==> row[c] == Stack(frames, r, c)
  {
    seq(frames[0].columns, c requires 0 <= c < frames[0].columns && Stackable(frames) && r < frames[0].rows
                           => Stack(frames, r, c))
  }

  ghost predicate Sized(rows: nat, columns: nat, data: array2<Num>, variance: array2<Num>, dq: array2<Quality>) {
    && data != variance
    && data.Length0 == variance.Length0 == dq.Length0 == rows
    && data.Length1 == variance.Length1 == dq.Length1 == columns
  }

  /** Row r of the three output arrays. */
  ghost function Stored(r: nat, data: array2<Num>, variance: array2<Num>, dq: array2<Quality>): (pixels: seq<Pixel>)
    requires Sized(data.Length0, data.Length1, data, variance, dq) && r < data.Length0
    reads data, variance, dq
    ensures |pixels| == data.Length1
  {
    seq(data.Length1, c requires 0 <= c < data.Length1 && r < data.Length0 && Sized(data.Length0, data.Length1, data,
        variance, dq)
                        reads data, variance, dq
                      => Pixel(data[r, c], variance[r, c], dq[r, c]))
  }

  ghost predicate RowCombined(row: seq<seq<Num>>, readNoise: real, pixels: seq<Pixel>) {
    |pixels| == |row| && forall c :: 0 <= c < |row| ==> pixels[c] == CombinePixel(row[c], readNoise)
  }

  ghost predicate RowClean(pixels: seq<Pixel>) {
    forall c :: 0 <= c < |pixels| ==> pixels[c].dq == {}
  }

  method RowPixels(row: seq<seq<Num>>, readNoise: real) returns (pixels: seq<Pixel>)
    ensures RowCombined(row, readNoise, pixels)
  {
    pixels := Along(row, samples => CombinePixel(samples, readNoise));
  }

  /** The operation applied to the stack of samples of every pixel of a row. */
  method Along(row: seq<seq<Num>>, operation: seq<Num> -> Pixel) returns (pixels: seq<Pixel>)
    ensures |pixels| == |row| && forall c :: 0 <= c < |row| ==> pixels[c] == operation(row[c])
  {
    pixels := [];
    for c := 0 to |row|
      invariant |pixels| == c && forall k :: 0 <= k < c ==> pixels[k] == operation(row[k])
    {
      pixels := pixels + [operation(row[c])];
    }
  }

  method StoreRow(pixels: seq<Pixel>, r: nat, data: array2<Num>, variance: array2<Num>, dq: array2<Quality>)
    requires Sized(data.Length0, |pixels|, data, variance, dq) && r < data.Length0
    requires RowClean(Stored(r, data, variance, dq))
    modifies data, variance, dq
    ensures Stored(r, data, variance, dq) == pixels
    ensures forall i :: 0 <= i < data.Length0 && i != r ==> Stored(i, data, variance, dq) == old(Stored(i, data, variance, dq))
  {
    assert forall k :: 0 <= k < |pixels| ==> Stored(r, data, variance, dq)[k].dq == dq[r, k];
    for c := 0 to |pixels|
      invariant forall k :: c <= k < |pixels| ==> dq[r, k] == {}
      invariant forall k :: 0 <= k < c ==> pixels[k] == Pixel(data[r, k], variance[r, k], dq[r, k])
      invariant forall i, k :: 0 <= i < data.Length0 && i != r && 0 <= k < |pixels| ==>
        data[i, k] == old(data[i, k]) && variance[i, k] == old(variance[i, k]) && dq[i, k] == old(dq[i, k])
    {
      data[r, c] := pixels[c].data;
      variance[r, c] := pixels[c].variance;
      dq[r, c] := dq[r, c] + pixels[c].dq;
    }
    assert Stored(r, data, variance, dq) == pixels;
    forall i | 0 <= i < data.Length0 && i != r
      ensures Stored(i, data, variance, dq) == old(Stored(i, data, variance, dq))
    {
      assert forall k :: 0 <= k < |pixels| ==> Stored(i, data, variance, dq)[k] == old(Stored(i, data, variance, dq)[k]);
    }
  }

  /** Combines the rows lower .. upper - 1 and leaves the others alone. */
  method CombineTile(frames: seq<Frame>, readNoise: real, lower: nat, upper: nat,
                     data: array2<Num>, variance: array2<Num>, dq: array2<Quality>)
    requires Stackable(frames) && Sized(frames[0].rows, frames[0].columns, data, variance, dq)
    requires lower <= upper <= frames[0].rows
    requires forall r :: 0 <= r < lower ==> RowCombined(StackRow(frames, r), readNoise, Stored(r, data, variance, dq))
    requires forall r :: lower <= r < frames[0].rows ==> RowClean(Stored(r, data, variance, dq))
    modifies data, variance, dq
    ensures forall r :: 0 <= r < upper ==> RowCombined(StackRow(frames, r), readNoise, Stored(r, data, variance, dq))
    ensures forall r :: upper <= r < frames[0].rows ==> RowClean(Stored(r, data, variance, dq))
  {
    for r := lower to upper
      invariant forall i :: 0 <= i < r ==> RowCombined(StackRow(frames, i), readNoise, Stored(i, data, variance, dq))
      invariant forall i :: r <= i < frames[0].rows ==> RowClean(Stored(i, data, variance, dq))
    {
      var pixels := RowPixels(StackRow(frames, r), readNoise);
      StoreRow(pixels, r, data, variance, dq);
    }
  }

  /** Rows of a tile: as many as fit in the working memory, at least one. */
  function TileRows(rows: nat, columns: nat, frames: nat, workingBytes: int): (n: nat)
    ensures n >= 1
  {
    var bytesPerRow := if frames * columns * 8 * 4 < 1 then 1 else frames * columns * 8 * 4;
    var fitting := workingBytes / bytesPerRow;
    var bounded := if rows < fitting then rows else fitting;
    if bounded < 1 then 1 else bounded
  }

  method ShapesAgree(frames: seq<Frame>) returns (agree: bool)
    requires frames != []
    ensures agree == SameShape(frames)
  {
    for i := 0 to |frames|
      invariant forall k :: 0 <= k < i ==> frames[k].rows == frames[0].rows && frames[k].columns == frames[0].columns
    {
      if frames[i].rows != frames[0].rows || frames[i].columns != frames[0].columns {
        return false;
      }
    }
    return true;
  }

  /** The tile loop. */
  method CombineTiles(frames: seq<Frame>, readNoise: real, tileRows: nat,
                      data: array2<Num>, variance: array2<Num>, dq: array2<Quality>)
    requires Stackable(frames) && Sized(frames[0].rows, frames[0].columns, data, variance, dq) && tileRows >= 1
    requires forall r :: 0 <= r < frames[0].rows ==> RowClean(Stored(r, data, variance, dq))
    modifies data, variance, dq
    ensures forall r :: 0 <= r < frames[0].rows ==> RowCombined(StackRow(frames, r), readNoise, Stored(r, data, variance, dq))
  {
    var rows := frames[0].rows;
    var lower := 0;
    while lower < rows
      invariant 0 <= lower <= rows
      invariant forall r :: 0 <= r < lower ==> RowCombined(StackRow(frames, r), readNoise, Stored(r, data, variance, dq))
      invariant forall r :: lower <= r < rows ==> RowClean(Stored(r, data, variance, dq))
    {
      var upper := if rows < lower + tileRows then rows else lower + tileRows;
      CombineTile(frames, readNoise, lower, upper, data, variance, dq);
      lower := upper;
    }
  }

  /** Every pixel is combined on its own, whatever the working memory and hence the height of the tiles. */
  method CombineCalibration(frames: seq<Frame>, readNoise: real, workingBytes: int)
    returns (r: Result<(array2<Num>, array2<Num>, array2<Quality>)>)
    requires forall i :: 0 <= i < |frames| ==> frames[i].Valid()
    ensures r.Success? <==> frames != [] && SameShape(frames)
    ensures r.Success? ==> Sized(frames[0].rows, frames[0].columns, r.value.0, r.value.1, r.value.2)
    ensures r.Success? ==> forall i :: 0 <= i < frames[0].rows ==>
      RowCombined(StackRow(frames, i), readNoise, Stored(i, r.value.0, r.value.1, r.value.2))
  {
    if |frames| == 0 {
      return Failure("at least one calibration frame is required");
    }
    var agree := ShapesAgree(frames);
    if !agree {
      return Failure("calibration frames must share one two-dimensional shape");
    }
    var data := new Num[frames[0].rows, frames[0].columns];
    var variance := new Num[frames[0].rows, frames[0].columns];
    var dq := new Quality[frames[0].rows, frames[0].columns]((_, _) => {});
    var tileRows := TileRows(frames[0].rows, frames[0].columns, |frames|, workingBytes);
    CombineTiles(frames, readNoise, tileRows, data, variance, dq);
    r := Success((data, variance, dq));
  }
}
