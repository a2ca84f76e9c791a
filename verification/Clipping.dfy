/** What a combined pixel is in terms of the samples of its frames: which frames are kept, and what is made of them. */
module Clipping {
  import opened Numeric
  import opened Sorting
  import opened Combine

  // ------------------------------------------------------------------------- the median

  function Number(s: seq<real>, p: real -> bool): (n: nat)
    ensures n <= |s|
  {
    if s == [] then 0 else (if p(s[0]) then 1 else 0) + Number(s[1..], p)
  }

  function Less(c: real): real -> bool { x => x < c }

  function Greater(c: real): real -> bool { x => x > c }

  function Below(s: seq<real>, c: real): (n: nat)
    ensures n <= |s|
  {
    Number(s, Less(c))
  }

  function Above(s: seq<real>, c: real): (n: nat)
    ensures n <= |s|
  {
    Number(s, Greater(c))
  }

  /** Fewer than half of the values lie below lo and at least half are at most lo; the same for hi from above. */
  ghost predicate Middle(s: seq<real>, lo: real, hi: real) {
    && 2 * Below(s, lo) < |s| <= 2 * (|s| - Above(s, lo))
    && 2 * Above(s, hi) < |s| <= 2 * (|s| - Below(s, hi))
  }

  lemma {:induction false} NumberSplit(s: seq<real>, t: seq<real>, p: real -> bool)
    ensures Number(s + t, p) == Number(s, p) + Number(t, p)
  {
    if s == [] {
      assert s + t == t;
    } else {
      NumberSplit(s[1..], t, p);
      assert (s + t)[1..] == s[1..] + t;
    }
  }

  lemma {:induction false} NumberInsert(x: real, s: seq<real>, p: real -> bool)
    ensures Number(Insert(x, s, AtMost), p) == Number([x], p) + Number(s, p)
  {
    if s == [] || x <= s[0] {
      NumberSplit([x], s, p);
    } else {
      NumberInsert(x, s[1..], p);
      NumberSplit([s[0]], Insert(x, s[1..], AtMost), p);
    }
  }

  lemma {:induction false} NumberSort(s: seq<real>, p: real -> bool)
    ensures Number(Sort(s), p) == Number(s, p)
  {
    if s != [] {
      NumberSort(s[1..], p);
      NumberInsert(s[0], Sort(s[1..]), p);
      NumberSplit([s[0]], s[1..], p);
      assert [s[0]] + s[1..] == s;
    }
  }

  lemma {:induction false} NumberNone(s: seq<real>, p: real -> bool)
    requires forall i :: 0 <= i < |s| ==> !p(s[i])
    ensures Number(s, p) == 0
  {
    if s != [] {
      NumberNone(s[1..], p);
    }
  }

  /** At most k values of a list in order lie below its k-th, and at most |t| - 1 - k above it. */
  lemma {:induction false} NumberCut(t: seq<real>, k: nat)
    requires Sorted(t) && k < |t|
    ensures Below(t, t[k]) <= k && Above(t, t[k]) <= |t| - 1 - k
  {
    assert t == t[..k] + t[k..] == t[..k + 1] + t[k + 1..];
    NumberSplit(t[..k], t[k..], Less(t[k]));
    NumberNone(t[k..], Less(t[k]));
    NumberSplit(t[..k + 1], t[k + 1..], Greater(t[k]));
    NumberNone(t[..k + 1], Greater(t[k]));
  }

  lemma {:induction false} NumberTwo(s: seq<real>, p: real -> bool, q: real -> bool)
    requires forall x :: !(p(x) && q(x))
    ensures Number(s, p) + Number(s, q) <= |s|
  {
    if s != [] {
      NumberTwo(s[1..], p, q);
    }
  }

  lemma {:induction false} NumberAll(s: seq<real>, p: real -> bool, q: real -> bool)
    requires forall x :: p(x) || q(x)
    ensures Number(s, p) + Number(s, q) >= |s|
  {
    if s != [] {
      NumberAll(s[1..], p, q);
    }
  }

  lemma {:induction false} MiddleExists(s: seq<real>)
    requires s != []
    ensures Middle(s, Sort(s)[(|s| - 1) / 2], Sort(s)[|s| / 2])
    ensures Median(s) == (Sort(s)[(|s| - 1) / 2] + Sort(s)[|s| / 2]) / 2.0
  {
    var t, n := Sort(s), |s|;
    SortIsOrdered(s, 0.0, 0.0);
    var i, j := (n - 1) / 2, n / 2;
    NumberCut(t, i);
    NumberCut(t, j);
    NumberSort(s, Less(t[i]));
    NumberSort(s, Greater(t[i]));
    NumberSort(s, Less(t[j]));
    NumberSort(s, Greater(t[j]));
  }

  lemma {:induction false} MiddleIsUnique(s: seq<real>, lo: real, hi: real, lo': real, hi': real)
    requires Middle(s, lo, hi) && Middle(s, lo', hi')
    ensures lo == lo' && hi == hi'
  {
    if lo < lo' {
      NumberAll(s, Less(lo'), Greater(lo));
    } else if lo' < lo {
      NumberAll(s, Less(lo), Greater(lo'));
    }
    if hi < hi' {
      NumberAll(s, Less(hi'), Greater(hi));
    } else if hi' < hi {
      NumberAll(s, Less(hi), Greater(hi'));
    }
  }

  /** The median is the mean of the two middle values. */
  lemma {:induction false} MedianIs(s: seq<real>, lo: real, hi: real)
    requires s != [] && Middle(s, lo, hi)
    ensures Median(s) == (lo + hi) / 2.0
  {
    MiddleExists(s);
    MiddleIsUnique(s, lo, hi, Sort(s)[(|s| - 1) / 2], Sort(s)[|s| / 2]);
  }

  // ----------------------------------------------------------------------- kept frames

  /** The largest distance from the median at which a frame is kept. */
  function Limit(mad: real, readNoise: real): real {
    var limit := Max(7.413 * mad, 5.0 * readNoise);
    if limit > 0.0 then limit else 5.0
  }

  /** The values of the frames within the distance of the centre. */
  function Near(samples: seq<Num>, centre: real, distance: real): seq<real> {
    if samples == [] then []
    else if samples[0].Val? && centre - distance <= samples[0].v <= centre + distance
    then [samples[0].v] + Near(samples[1..], centre, distance)
    else Near(samples[1..], centre, distance)
  }

  /** m is the median of the finite frames, and d the median of their distances from it. */
  ghost predicate Centred(samples: seq<Num>, m: real, d: real) {
    var s := FiniteValues(samples);
    && (exists lo, hi :: Middle(s, lo, hi) && m == (lo + hi) / 2.0)
    && (exists lo, hi :: Middle(Deviations(s, m), lo, hi) && d == (lo + hi) / 2.0)
  }

  lemma {:induction false} AcceptedHead(x: real, s: seq<real>, c: real, limit: real)
    ensures Accepted([x] + s, c, limit) == (if c - limit <= x <= c + limit then [x] else []) + Accepted(s, c, limit)
  {
    assert ([x] + s)[1..] == s;
  }

  lemma {:induction false} NearIsAccepted(samples: seq<Num>, c: real, limit: real)
    ensures Near(samples, c, limit) == Accepted(FiniteValues(samples), c, limit)
  {
    if samples != [] {
      NearIsAccepted(samples[1..], c, limit);
      if samples[0].Val? {
        assert FiniteValues(samples) == [samples[0].v] + FiniteValues(samples[1..]);
        AcceptedHead(samples[0].v, FiniteValues(samples[1..]), c, limit);
      } else {
        assert FiniteValues(samples) == FiniteValues(samples[1..]);
      }
    }
  }

  lemma {:induction false} ScaleIs(s: seq<real>, readNoise: real)
    requires s != []
    ensures 5.0 * Scale(s, readNoise) == Limit(Mad(s), readNoise)
  {}

  /** Median and MAD exist and are unique as soon as some frame is finite. */
  lemma {:induction false} CentredIff(samples: seq<Num>, m: real, d: real)
    requires FiniteValues(samples) != []
    ensures Centred(samples, m, d) <==> m == Median(FiniteValues(samples)) && d == Mad(FiniteValues(samples))
  {
    MedianIff(FiniteValues(samples), m);
    MedianIff(Deviations(FiniteValues(samples), m), d);
  }

  lemma {:induction false} MedianIff(s: seq<real>, m: real)
    requires s != []
    ensures (exists lo, hi :: Middle(s, lo, hi) && m == (lo + hi) / 2.0) <==> m == Median(s)
  {
    MiddleExists(s);
    if lo, hi :| Middle(s, lo, hi) && m == (lo + hi) / 2.0 {
      MedianIs(s, lo, hi);
    }
  }

  /** n * n * (n - 1) times the variance is the sum of the squared differences of all pairs. */
  ghost predicate IsVarianceOfMean(variance: Num, kept: seq<real>) {
    variance.Val? && Copies(|kept|, Copies(|kept|, Copies(|kept| - 1, variance.v))) == PairSum(kept)
  }

  /** The frames kept are exactly those within 7.413 MAD or 5 read noises of the median, whichever is more, or within 5 when
      both vanish. Without a finite frame there is no value. Otherwise the value is the mean of the kept frames, whose sum and
      squared pair differences give value and variance; the bad-pixel bit says that fewer than half of the frames are kept. */
  lemma {:induction false} PixelIs(samples: seq<Num>, readNoise: real, m: real, d: real, kept: seq<real>)
    requires Centred(samples, m, d) && FiniteValues(samples) != [] && kept == Near(samples, m, Limit(d, readNoise))
    ensures var pixel := CombinePixel(samples, readNoise);
      && kept != [] && pixel.data.Val? && Copies(|kept|, pixel.data.v) == Total(kept)
      && (|kept| >= 2 ==> IsVarianceOfMean(pixel.variance, kept))
      && (|kept| == 1 ==> pixel.variance == if |samples| == 1 then Val(0.0) else Missing)
      && (BAD_PIXEL in pixel.dq <==> |kept| < |samples| / 2) && pixel.dq <= {BAD_PIXEL}
  {
    var s := FiniteValues(samples);
    CentredIff(samples, m, d);
    ScaleIs(s, readNoise);
    NearIsAccepted(samples, m, Limit(d, readNoise));
    assert kept == Clipped(s, readNoise);
    HalfSurvives(s, readNoise);
    MeanIs(kept);
    if |kept| >= 2 {
      VarianceByPairs(kept);
    } else {
      AloneVariance(kept);
    }
  }

  lemma {:induction false} AloneVariance(kept: seq<real>)
    requires |kept| == 1
    ensures MeanVariance(kept, 0) == Val(0.0) && MeanVariance(kept, 1) == Missing
  {
    assert Total(kept) == kept[0] + Total([]);
    assert Mean(kept) == kept[0];
    assert SquaredDeviations(kept, kept[0]) == Square(0.0) + SquaredDeviations([], kept[0]);
  }

  /** Without a finite frame the pixel has neither value nor variance, and is bad. */
  lemma {:induction false} EmptyPixel(samples: seq<Num>, readNoise: real)
    requires forall i :: 0 <= i < |samples| ==> samples[i] == Missing
    ensures CombinePixel(samples, readNoise) == Pixel(Missing, Missing, {BAD_PIXEL})
  {
    NoFinite(samples);
  }

  lemma {:induction false} NoFinite(samples: seq<Num>)
    requires forall i :: 0 <= i < |samples| ==> samples[i] == Missing
    ensures FiniteValues(samples) == []
  {
    if samples != [] {
      NoFinite(samples[1..]);
    }
  }

  /** When no finite frame is too far from the median, the value is the mean of all of them. */
  lemma {:induction false} AllAreKept(samples: seq<Num>, readNoise: real, m: real, d: real)
    requires Centred(samples, m, d) && FiniteValues(samples) != []
    requires forall i :: 0 <= i < |samples| && samples[i].Val? ==> Abs(samples[i].v - m) <= Limit(d, readNoise)
    ensures CombinePixel(samples, readNoise).data == Val(Mean(FiniteValues(samples)))
  {
    NothingIsFar(samples, m, Limit(d, readNoise));
    PixelIs(samples, readNoise, m, d, FiniteValues(samples));
    MeanIs(FiniteValues(samples));
    SameMean(|FiniteValues(samples)|, CombinePixel(samples, readNoise).data.v, Mean(FiniteValues(samples)));
  }

  lemma {:induction false} SameMean(n: int, x: real, y: real)
    requires n > 0 && Copies(n, x) == Copies(n, y)
    ensures x == y
  {
    CopiesLe(n, x, y);
    CopiesLe(n, y, x);
  }

  lemma {:induction false} NothingIsFar(samples: seq<Num>, c: real, limit: real)
    requires forall i :: 0 <= i < |samples| && samples[i].Val? ==> Abs(samples[i].v - c) <= limit
    ensures Near(samples, c, limit) == FiniteValues(samples)
  {
    if samples != [] {
      forall i | 0 <= i < |samples[1..]| && samples[1..][i].Val?
        ensures Abs(samples[1..][i].v - c) <= limit
      {
        assert samples[1..][i] == samples[i + 1];
      }
      NothingIsFar(samples[1..], c, limit);
    }
  }

  // -------------------------------------------------------------------------- outliers

  /** Where the value of frame k stands among the finite values. */
  lemma {:induction false} PlaceOf(samples: seq<Num>, k: nat, x: real) returns (j: nat)
    requires k < |samples| && samples[k].Val?
    ensures j < |FiniteValues(samples)| && FiniteValues(samples)[j] == samples[k].v
    ensures FiniteValues(samples[k := Val(x)]) == FiniteValues(samples)[j := x]
  {
    var changed := samples[k := Val(x)];
    if k == 0 {
      j := 0;
      assert changed[1..] == samples[1..];
    } else {
      j := PlaceOf(samples[1..], k - 1, x);
      assert changed[1..] == samples[1..][k - 1 := Val(x)];
      if samples[0].Val? {
        j := j + 1;
        assert FiniteValues(samples)[1..] == FiniteValues(samples[1..]);
        assert FiniteValues(samples)[j := x] == [samples[0].v] + FiniteValues(samples[1..])[j - 1 := x];
      }
    }
  }

  lemma {:induction false} NumberKept(s: seq<real>, j: nat, x: real, p: real -> bool)
    requires j < |s| && p(s[j]) == p(x)
    ensures Number(s[j := x], p) == Number(s, p)
  {
    if j > 0 {
      NumberKept(s[1..], j - 1, x, p);
      assert s[j := x][1..] == s[1..][j - 1 := x];
    } else {
      assert s[j := x][1..] == s[1..];
    }
  }

  predicate SameSide(x: real, y: real, c: real) { (x > c && y > c) || (x < c && y < c) }

  lemma {:induction false} MiddleKept(s: seq<real>, j: nat, x: real, lo: real, hi: real)
    requires j < |s| && Middle(s, lo, hi) && SameSide(s[j], x, lo) && SameSide(s[j], x, hi)
    ensures Middle(s[j := x], lo, hi)
  {
    NumberKept(s, j, x, Less(lo));
    NumberKept(s, j, x, Greater(lo));
    NumberKept(s, j, x, Less(hi));
    NumberKept(s, j, x, Greater(hi));
  }

  /** No value lies strictly between the two middle ones. */
  lemma {:induction false} MiddleIsGap(s: seq<real>, x: real)
    requires x in s
    ensures x <= Sort(s)[(|s| - 1) / 2] <= Sort(s)[|s| / 2] || Sort(s)[(|s| - 1) / 2] <= Sort(s)[|s| / 2] <= x
  {
    var t := Sort(s);
    SortIsOrdered(s, 0.0, 0.0);
    SameMembers(s, t);
    var k :| 0 <= k < |t| && t[k] == x;
    assert k <= (|s| - 1) / 2 || k >= |s| / 2;
  }

  lemma {:induction false} DeviationBeyond(s: seq<real>, lo: real, hi: real, m: real, y: real)
    requires y in Deviations(s, m) && m == (lo + hi) / 2.0 && forall x :: x in s ==> x <= lo <= hi || lo <= hi <= x
    ensures y >= hi - m && y >= 0.0
  {
    var i :| 0 <= i < |s| && Deviations(s, m)[i] == y;
    assert s[i] in s;
  }

  /** The middle values of the finite frames and of their deviations are all inside the limit. */
  lemma {:induction false} MiddleIsNear(s: seq<real>, readNoise: real) returns (lo: real, hi: real, near: real, far: real)
    requires s != []
    ensures Middle(s, lo, hi) && Median(s) == (lo + hi) / 2.0
    ensures Middle(Deviations(s, Median(s)), near, far) && Mad(s) == (near + far) / 2.0
    ensures Median(s) - Limit(Mad(s), readNoise) <= lo <= hi <= Median(s) + Limit(Mad(s), readNoise)
    ensures 0.0 <= near <= far <= Limit(Mad(s), readNoise)
  {
    lo, hi := Sort(s)[(|s| - 1) / 2], Sort(s)[|s| / 2];
    var dev := Deviations(s, Median(s));
    near, far := Sort(dev)[(|s| - 1) / 2], Sort(dev)[|s| / 2];
    MiddleExists(s);
    MiddleExists(dev);
    SortIsOrdered(s, 0.0, 0.0);
    SortIsOrdered(dev, 0.0, 0.0);
    forall x | x in s
      ensures x <= lo <= hi || lo <= hi <= x
    {
      MiddleIsGap(s, x);
    }
    assert near in Sort(dev);
    SameMembers(dev, Sort(dev));
    DeviationBeyond(s, lo, hi, Median(s), near);
    LimitIsWide(near, far, Mad(s), readNoise);
  }

  lemma {:induction false} LimitIsWide(near: real, far: real, d: real, readNoise: real)
    requires 0.0 <= near <= far && d == (near + far) / 2.0
    ensures near <= far <= Limit(d, readNoise)
  {}

  lemma {:induction false} ChangedMedian(s: seq<real>, j: nat, x: real, lo: real, hi: real, m: real, limit: real)
    requires j < |s| && Middle(s, lo, hi) && m == (lo + hi) / 2.0 && m - limit <= lo <= hi <= m + limit
    requires SameSide(s[j], x, m) && Abs(s[j] - m) > limit && Abs(x - m) > limit
    ensures Median(s) == m && Median(s[j := x]) == m
  {
    MiddleKept(s, j, x, lo, hi);
    MedianIs(s, lo, hi);
    MedianIs(s[j := x], lo, hi);
  }

  lemma {:induction false} ChangedDeviation(s: seq<real>, j: nat, x: real, m: real)
    requires j < |s|
    ensures Deviations(s[j := x], m) == Deviations(s, m)[j := Abs(x - m)]
  {}

  lemma {:induction false} ChangedMad(s: seq<real>, j: nat, x: real, near: real, far: real, m: real, limit: real)
    requires j < |s| && Median(s) == m && Median(s[j := x]) == m && Middle(Deviations(s, m), near, far)
    requires 0.0 <= near <= far <= limit && Abs(s[j] - m) > limit && Abs(x - m) > limit
    ensures Mad(s[j := x]) == (near + far) / 2.0
  {
    ChangedDeviation(s, j, x, m);
    MiddleKept(Deviations(s, m), j, Abs(x - m), near, far);
    MedianIs(Deviations(s[j := x], m), near, far);
  }

  lemma {:induction false} SameClipping(s: seq<real>, r: seq<real>, readNoise: real)
    requires s != [] && r != [] && Median(r) == Median(s) && Mad(r) == Mad(s)
    ensures Clipped(r, readNoise) == Accepted(r, Median(s), Limit(Mad(s), readNoise))
    ensures Clipped(s, readNoise) == Accepted(s, Median(s), Limit(Mad(s), readNoise))
  {
    ClippedIs(s, readNoise, Median(s), Mad(s));
    ClippedIs(r, readNoise, Median(s), Mad(s));
  }

  lemma {:induction false} ClippedIs(s: seq<real>, readNoise: real, m: real, d: real)
    requires s != [] && m == Median(s) && d == Mad(s)
    ensures Clipped(s, readNoise) == Accepted(s, m, Limit(d, readNoise))
  {
    ScaleIs(s, readNoise);
    ClippedAt(s, readNoise);
  }

  lemma {:induction false} ClippedAt(s: seq<real>, readNoise: real)
    requires s != []
    ensures Clipped(s, readNoise) == Accepted(s, Median(s), 5.0 * Scale(s, readNoise))
  {}

  /** Changing one finite value beyond the limit, on its side, keeps the values kept. */
  lemma {:induction false} ChangedOutlier(s: seq<real>, j: nat, x: real, readNoise: real)
    requires j < |s| && SameSide(s[j], x, Median(s))
    requires Abs(s[j] - Median(s)) > Limit(Mad(s), readNoise) && Abs(x - Median(s)) > Limit(Mad(s), readNoise)
    ensures Clipped(s[j := x], readNoise) == Clipped(s, readNoise)
  {
    var m, limit := Median(s), Limit(Mad(s), readNoise);
    var lo, hi, near, far := MiddleIsNear(s, readNoise);
    ChangedMedian(s, j, x, lo, hi, m, limit);
    ChangedMad(s, j, x, near, far, m, limit);
    SameClipping(s, s[j := x], readNoise);
    AcceptedKept(s, j, x, m, limit);
  }

  /** A frame beyond the limit has no influence: whatever other value it takes there, on the same side, the whole pixel stays
      what it is. */
  lemma {:induction false} OutlierIsIgnored(samples: seq<Num>, readNoise: real, m: real, d: real, k: nat, x: real)
    requires Centred(samples, m, d) && k < |samples| && samples[k].Val?
    requires SameSide(samples[k].v, x, m) && Abs(samples[k].v - m) > Limit(d, readNoise) && Abs(x - m) > Limit(d, readNoise)
    ensures CombinePixel(samples[k := Val(x)], readNoise) == CombinePixel(samples, readNoise)
  {
    var j := PlaceOf(samples, k, x);
    CentredIff(samples, m, d);
    ChangedOutlier(FiniteValues(samples), j, x, readNoise);
  }

  lemma {:induction false} AcceptedKept(s: seq<real>, j: nat, x: real, c: real, limit: real)
    requires j < |s| && Abs(s[j] - c) > limit && Abs(x - c) > limit
    ensures Accepted(s[j := x], c, limit) == Accepted(s, c, limit)
  {
    if j > 0 {
      AcceptedKept(s[1..], j - 1, x, c, limit);
      assert s[j := x][1..] == s[1..][j - 1 := x];
    } else {
      assert s[j := x][1..] == s[1..];
    }
  }
}
