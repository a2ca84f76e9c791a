/** The direction in which an order is stored: what it changes in the resampling step. */
module Orientation {
  import opened Numeric
  import opened Bins
  import opened Banded
  import opened Resample

  lemma {:induction false} AscendReversed<T>(x: seq<real>, s: seq<T>)
    requires ValidCentres(x) && |s| == |x|
    ensures Ascend(Reverse(x), Reverse(s)) == s && Ascend(x, s) == s
  {
    StepsIncrease(x, 0, |x| - 1);
  }

  ghost predicate Decreasing(s: seq<real>) { forall i, j :: 0 <= i < j < |s| ==> s[i] > s[j] }

  /** The step accepts exactly the wavelength lists of two entries or more that strictly increase or strictly decrease. */
  lemma {:induction false} AcceptedIff(x: seq<real>)
    ensures ValidCentres(Ascend(x, x)) <==> |x| >= 2 && (StrictlyIncreasing(x) || Decreasing(x))
  {
    if ValidCentres(Ascend(x, x)) {
      var s := Ascend(x, x);
      forall i, j | 0 <= i < j < |s|
        ensures s[i] < s[j]
      {
        StepsIncrease(s, i, j);
      }
      if Descending(x) {
        forall i, j | 0 <= i < j < |x|
          ensures x[i] > x[j]
        {
          assert s[|x| - 1 - j] < s[|x| - 1 - i];
        }
      }
    }
  }

  /** Without a lag column the step does not depend on the direction in which an order is stored. */
  lemma {:induction false} DirectionIrrelevant(x: seq<real>, y: seq<Num>, variance: seq<Num>, dq: seq<Quality>)
    requires |x| == |y| == |variance| == |dq| && ValidCentres(x)
    ensures ValidCentres(Ascend(Reverse(x), Reverse(x)))
    ensures SourceOf(Reverse(x), Reverse(y), Reverse(variance), Reverse(dq), None)
         == SourceOf(x, y, variance, dq, None)
  {
    AscendReversed(x, x);
    AscendReversed(x, y);
    AscendReversed(x, variance);
    AscendReversed(x, dq);
  }

  /** The sources describe the same samples with the same covariances. */
  ghost predicate SamePairs(a: Source, b: Source) {
    && a.edges == b.edges && a.flux == b.flux && a.variance == b.variance && a.dq == b.dq && |a.lag| == |b.lag|
    && forall i :: 0 <= i < |a.lag| - 1 ==> a.lag[i] == b.lag[i]
  }

  /** The lag column of the order stored in the other direction: entry j pairs its samples j and j + 1. */
  ghost predicate IsStoredLag(stored: seq<real>, lag: seq<real>) {
    |stored| == |lag| && forall j :: 0 <= j < |lag| - 1 ==> stored[j] == lag[|lag| - 2 - j]
  }

  lemma {:induction false} SameCovariance(a: Source, b: Source, first: Row, second: Row)
    requires a.WellFormed() && b.WellFormed() && SamePairs(a, b)
    ensures a.Covariance(first, second) == b.Covariance(first, second)
  {
    forall i, j | 0 <= i < a.Size() && 0 <= j < a.Size()
      ensures a.Entry(first, second, i, j) == b.Entry(first, second, i, j)
    {
      assert a.C(i, j) == b.C(i, j);
    }
    DoubleSumSame(a.Size(), (i, j) => a.Entry(first, second, i, j), (i, j) => b.Entry(first, second, i, j));
  }

  lemma {:induction false} SameRawEntry(a: Source, b: Source, first: Row, second: Row, i: int, j: int)
    requires a.RawC(i, j) == b.RawC(i, j)
    ensures a.RawEntry(first, second, i, j) == b.RawEntry(first, second, i, j)
  {}

  lemma {:induction false} SameRawTerm(a: Source, b: Source, first: Row, second: Row, i: int)
    requires a.WellFormed() && b.WellFormed() && SamePairs(a, b) && 0 <= i < a.Size()
    ensures a.RawTerm(first, second, i) == b.RawTerm(first, second, i)
  {
    SameRawEntry(a, b, first, second, i, i);
    if i > 0 {
      SameRawEntry(a, b, first, second, i, i - 1);
    }
    if i + 1 < a.Size() {
      SameRawEntry(a, b, first, second, i, i + 1);
    }
  }

  lemma {:induction false} SameUnion(a: Source, b: Source, row: Row, n: int)
    requires SamePairs(a, b)
    ensures a.DqUnion(row, n) == b.DqUnion(row, n)
    decreases n
  {
    if n > 0 {
      SameUnion(a, b, row, n - 1);
    }
  }

  /** Such sources give the same output in every column. */
  lemma {:induction false} SamePairsSameColumns(a: Source, b: Source, first: Row, second: Row)
    requires a.WellFormed() && b.WellFormed() && SamePairs(a, b)
    ensures a.FluxOut(first) == b.FluxOut(first) && a.VarianceOut(first) == b.VarianceOut(first)
    ensures a.DqOut(first) == b.DqOut(first) && a.LagOut(first, second) == b.LagOut(first, second)
  {
    assert forall i :: a.Used(first, i) <==> b.Used(first, i);
    SumCongruence(0, a.Size(), i => a.FluxTerm(first, i), i => b.FluxTerm(first, i));
    SameCovariance(a, b, first, first);
    SameUnion(a, b, first, a.Size());
    forall i | 0 <= i < a.Size()
      ensures a.RawTerm(first, second, i) == b.RawTerm(first, second, i)
    {
      SameRawTerm(a, b, first, second, i);
    }
    SumCongruence(0, a.Size(), i => a.RawTerm(first, second, i), i => b.RawTerm(first, second, i));
  }

  lemma {:induction false} ShiftedIff(lag: seq<real>, stored: seq<real>)
    requires |lag| >= 2 && IsStoredLag(stored, lag)
    ensures (forall i :: 0 <= i < |lag| - 1 ==> Reverse(stored)[i] == lag[i])
       <==> forall j :: 0 <= j < |stored| ==> stored[j] == stored[0]
  {
    var n := |lag|;
    if forall i :: 0 <= i < n - 1 ==> Reverse(stored)[i] == lag[i] {
      forall j | 0 <= j < n - 1
        ensures stored[j + 1] == stored[j]
      {
        assert Reverse(stored)[n - 2 - j] == lag[n - 2 - j];
      }
      AllEqual(stored, n - 1);
    }
    if forall j :: 0 <= j < n ==> stored[j] == stored[0] {
      forall i | 0 <= i < n - 1
        ensures Reverse(stored)[i] == lag[i]
      {
        assert stored[n - 2 - i] == lag[n - 2 - (n - 2 - i)];
      }
    }
  }

  lemma {:induction false} AllEqual(s: seq<real>, k: int)
    requires 0 <= k < |s|
    requires forall j :: 0 <= j < |s| - 1 ==> s[j + 1] == s[j]
    ensures forall j :: 0 <= j <= k ==> s[j] == s[0]
    decreases k
  {
    if k > 0 {
      AllEqual(s, k - 1);
      assert s[k - 1 + 1] == s[k - 1];
    }
  }

  // ------------------------------------------------------------------------ whole columns

  /** The step gives the same four columns for both sources. */
  ghost predicate SameColumns(a: Source, b: Source, te: seq<real>) {
    forall t :: 0 <= t < |te| - 1 ==> SameColumnsAt(a, b, te, t)
  }

  ghost predicate SameColumnsAt(a: Source, b: Source, te: seq<real>, t: int)
    requires 0 <= t < |te| - 1
  {
    var first, second := WeightRow(a.edges, te, t), WeightRow(b.edges, te, t);
    && a.FluxOut(first) == b.FluxOut(second) && a.VarianceOut(first) == b.VarianceOut(second)
    && a.DqOut(first) == b.DqOut(second) && LagColumn(a, te, t) == LagColumn(b, te, t)
  }

  lemma {:induction false} SamePairsSameStep(a: Source, b: Source, te: seq<real>)
    requires a.WellFormed() && b.WellFormed() && SamePairs(a, b)
    ensures SameColumns(a, b, te)
  {
    forall t | 0 <= t < |te| - 1
      ensures SameColumnsAt(a, b, te, t)
    {
      SamePairsSameColumns(a, b, WeightRow(a.edges, te, t), WeightRow(a.edges, te, t + 1));
    }
  }

  /** On its own grid every source bin is one target bin. */
  lemma {:induction false} OwnRow(edges: seq<real>, t: int)
    requires StrictlyIncreasing(edges) && 0 <= t < |edges| - 1
    ensures WeightRow(edges, edges, t) == map[t := 1.0]
  {
    forall i | 0 <= i < |edges| - 1
      ensures Weight(edges, edges, t, i) == if i == t then 1.0 else 0.0
    {
      OwnWeight(edges, t, i);
    }
    SweepRow(map[t := 1.0], edges, edges, t);
  }

  lemma {:induction false} OwnOverlap(edges: seq<real>, t: int, i: int)
    requires StrictlyIncreasing(edges) && 0 <= t < |edges| - 1 && 0 <= i < |edges| - 1
    ensures Overlap(edges[t], edges[t + 1], edges[i], edges[i + 1]) == if i == t then edges[i + 1] - edges[i] else 0.0
  {
    assert i < t ==> edges[i + 1] <= edges[t];
    assert t < i ==> edges[t + 1] <= edges[i];
  }

  lemma {:induction false} OwnWeight(edges: seq<real>, t: int, i: int)
    requires StrictlyIncreasing(edges) && 0 <= t < |edges| - 1 && 0 <= i < |edges| - 1
    ensures Weight(edges, edges, t, i) == if i == t then 1.0 else 0.0
  {
    OwnOverlap(edges, t, i);
    WeightIs(edges, edges, t, i, if i == t then 1.0 else 0.0, edges[i + 1] - edges[i]);
  }

  lemma {:induction false} OwnRawTerm(source: Source, t: int, i: int)
    requires source.WellFormed() && 0 <= t < source.Size() - 1
    ensures source.RawTerm(map[t := 1.0], map[t + 1 := 1.0], i) == if i == t then source.lag[t] else 0.0
  {
    var first, second := map[t := 1.0], map[t + 1 := 1.0];
    RawEntryIs(source, first, second, i, i);
    RawEntryIs(source, first, second, i, i - 1);
    RawEntryIs(source, first, second, i, i + 1);
  }

  /** So the step hands the input lag column through. */
  lemma {:induction false} OwnLag(source: Source, t: int)
    requires source.WellFormed() && 0 <= t < source.Size() - 1
    ensures LagColumn(source, source.edges, t) == Val(source.lag[t])
  {
    var first, second := map[t := 1.0], map[t + 1 := 1.0];
    OwnRow(source.edges, t);
    OwnRow(source.edges, t + 1);
    var terms := i => source.RawTerm(first, second, i);
    forall i | 0 <= i < source.Size()
      ensures terms(i) == if i == t then source.lag[t] else 0.0
    {
      OwnRawTerm(source, t, i);
    }
    SumSingle(0, source.Size(), t, terms);
    SumCongruence(0, source.Size(), terms, i => source.RawTerm(first, second, i));
  }

  /** Sources on the same samples give the same columns on every grid exactly when they agree on all pairs. */
  lemma {:induction false} SameStepIff(a: Source, b: Source, centres: seq<real>)
    requires a.WellFormed() && b.WellFormed() && ValidCentres(centres) && a.edges == b.edges == Edges(centres)
    requires a.flux == b.flux && a.variance == b.variance && a.dq == b.dq
    ensures (forall targetX :: ValidCentres(targetX) ==> SameColumns(a, b, Edges(targetX))) <==> SamePairs(a, b)
    ensures SameColumns(a, b, Edges(centres)) <==> SamePairs(a, b)
  {
    if SamePairs(a, b) {
      forall targetX | ValidCentres(targetX)
        ensures SameColumns(a, b, Edges(targetX))
      {
        SamePairsSameStep(a, b, Edges(targetX));
      }
    }
    if SameColumns(a, b, Edges(centres)) {
      forall t | 0 <= t < a.Size() - 1
        ensures a.lag[t] == b.lag[t]
      {
        assert SameColumnsAt(a, b, Edges(centres), t);
        OwnLag(a, t);
        OwnLag(b, t);
      }
    }
  }

  lemma {:induction false} SourcesAreWellFormed(x: seq<real>, y: seq<Num>, variance: seq<Num>, dq: seq<Quality>, lag: seq<real>)
    requires |x| == |y| == |variance| == |dq| == |lag| && ValidCentres(x)
    ensures ValidCentres(Ascend(x, x)) && SourceOf(x, y, variance, dq, Some(lag)) == Source(Edges(x), y, variance, dq, lag)
    ensures Source(Edges(x), y, variance, dq, lag).WellFormed()
  {
    AscendReversed(x, x);
    AscendReversed(x, y);
    AscendReversed(x, variance);
    AscendReversed(x, dq);
    AscendReversed(x, lag);
    EdgesIncrease(x);
  }

  /** The source that the step works on when the order is stored in descending wavelength. */
  lemma {:induction false} DescendingSource(x: seq<real>, y: seq<Num>, variance: seq<Num>, dq: seq<Quality>, stored: seq<real>)
    requires |x| == |y| == |variance| == |dq| == |stored| && ValidCentres(x)
    ensures ValidCentres(Ascend(Reverse(x), Reverse(x)))
    ensures SourceOf(Reverse(x), Reverse(y), Reverse(variance), Reverse(dq), Some(stored))
         == Source(Edges(x), y, variance, dq, Reverse(stored))
  {
    AscendReversed(x, x);
    AscendReversed(x, y);
    AscendReversed(x, variance);
    AscendReversed(x, dq);
    StepsIncrease(x, 0, |x| - 1);
    assert Ascend(Reverse(x), stored) == Reverse(stored);
  }

  /** With a lag column the stored direction matters: the step reverses the column of an order stored in descending
      wavelength as if it were a sample array, which moves the unused last entry to the front and shifts every pair by one.
      Both directions then give the same flux, variance, quality and lag on every target grid exactly when all stored entries
      are equal, and the grid of the order itself is enough to tell them apart. */
  lemma {:induction false} ReversedLagIff(x: seq<real>, y: seq<Num>, variance: seq<Num>, dq: seq<Quality>,
                                          lag: seq<real>, stored: seq<real>)
    requires |x| == |y| == |variance| == |dq| == |lag| && ValidCentres(x) && IsStoredLag(stored, lag)
    ensures ValidCentres(Ascend(Reverse(x), Reverse(x)))
    ensures var descending := SourceOf(Reverse(x), Reverse(y), Reverse(variance), Reverse(dq), Some(stored));
      var ascending := SourceOf(x, y, variance, dq, Some(lag));
      && ((forall targetX :: ValidCentres(targetX) ==> SameColumns(descending, ascending, Edges(targetX))) <==> Constant(stored))
      && (SameColumns(descending, ascending, Edges(x)) <==> Constant(stored))
  {
    SourcesAreWellFormed(x, y, variance, dq, lag);
    SourcesAreWellFormed(x, y, variance, dq, Reverse(stored));
    DescendingSource(x, y, variance, dq, stored);
    SameStepIff(Source(Edges(x), y, variance, dq, Reverse(stored)), Source(Edges(x), y, variance, dq, lag), x);
    ShiftedIff(lag, stored);
  }

  ghost predicate Constant(s: seq<real>) { forall j :: 0 <= j < |s| ==> s[j] == s[0] }

  /** Stored in descending wavelength, the order is resampled on its own grid with this covariance of samples t and t + 1. */
  ghost predicate ComesOutAs(x: seq<real>, y: seq<Num>, variance: seq<Num>, dq: seq<Quality>, stored: seq<real>, t: int, c: Num) {
    && ValidCentres(x) && ValidCentres(Ascend(Reverse(x), Reverse(x)))
    && LagColumn(SourceOf(Reverse(x), Reverse(y), Reverse(variance), Reverse(dq), Some(stored)), Edges(x), t) == c
  }

  /** Every pair comes out with the covariance of the pair before it, and the first one with the unused last entry. */
  lemma {:induction false} DescendingLag(x: seq<real>, y: seq<Num>, variance: seq<Num>, dq: seq<Quality>, stored: seq<real>,
                                         t: nat, c: real)
    requires |x| == |y| == |variance| == |dq| == |stored| && ValidCentres(x) && t < |x| - 1 && c == stored[|x| - 1 - t]
    ensures ComesOutAs(x, y, variance, dq, stored, t, Val(c))
  {
    DescendingSource(x, y, variance, dq, stored);
    SourcesAreWellFormed(x, y, variance, dq, Reverse(stored));
    OwnLag(Source(Edges(x), y, variance, dq, Reverse(stored)), t);
  }

  /** Three samples whose neighbours are correlated by 0.5 and 0.25, stored in descending wavelength: the step resamples them
      as if they were correlated by 0 and 0.5. */
  lemma {:induction false} ShiftedLag(x: seq<real>, y: seq<Num>, variance: seq<Num>, dq: seq<Quality>, lag: seq<real>,
                                      stored: seq<real>)
    requires ValidCentres(x) && |x| == |y| == |variance| == |dq| == |lag| == |stored| == 3 && IsStoredLag(stored, lag)
    requires lag[0] == 0.5 && lag[1] == 0.25 && stored[2] == 0.0
    ensures ComesOutAs(x, y, variance, dq, stored, 0, Val(0.0)) && ComesOutAs(x, y, variance, dq, stored, 1, Val(lag[0]))
  {
    DescendingLag(x, y, variance, dq, stored, 0, 0.0);
    assert stored[1] == lag[0];
    DescendingLag(x, y, variance, dq, stored, 1, lag[0]);
  }
}
