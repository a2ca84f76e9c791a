/** Bin edges, the all-pairs overlap definition, and the forward-only sweep that refines it. */
module Bins {
  import opened Numeric

  // ---------------------------------------------------------------- bin edges

  ghost predicate StrictlyIncreasing(s: seq<real>) {
    forall i, j :: 0 <= i < j < |s| ==> s[i] < s[j]
  }

  predicate ValidCentres(centres: seq<real>) {
    |centres| >= 2 && forall i :: 0 <= i < |centres| - 1 ==> centres[i] < centres[i + 1]
  }

  lemma {:induction false} StepsIncrease(s: seq<real>, i: int, j: int)
    requires forall k :: 0 <= k < |s| - 1 ==> s[k] < s[k + 1]
    requires 0 <= i < j < |s|
    ensures s[i] < s[j]
    decreases j - i
  {
    if i + 1 < j {
      StepsIncrease(s, i, j - 1);
    }
  }

  /** Edge k: a midpoint between neighbours, or an outer half bin mirrored about the end centre. */
  function EdgeAt(centres: seq<real>, k: int): real
    requires |centres| >= 2 && 0 <= k <= |centres|
  {
    var n := |centres|;
    if k == 0 then centres[0] - ((centres[0] + centres[1]) / 2.0 - centres[0])
    else if k == n then centres[n - 1] + (centres[n - 1] - (centres[n - 2] + centres[n - 1]) / 2.0)
    else (centres[k - 1] + centres[k]) / 2.0
  }

  function Edges(centres: seq<real>): (edges: seq<real>)
    requires ValidCentres(centres)
  {
    seq(|centres| + 1, k requires 0 <= k <= |centres| => EdgeAt(centres, k))
  }

  /** Every centre lies strictly inside its own bin, so the edges strictly increase. */
  lemma {:induction false} EdgesIncrease(centres: seq<real>)
    requires ValidCentres(centres)
    ensures |Edges(centres)| == |centres| + 1
    ensures forall i :: 0 <= i < |centres| ==> Edges(centres)[i] < centres[i] < Edges(centres)[i + 1]
    ensures StrictlyIncreasing(Edges(centres))
  {
    var edges := Edges(centres);
    var n := |centres|;
    forall i | 0 <= i < n
      ensures edges[i] < centres[i] < edges[i + 1]
    {
      assert i > 0 ==> centres[i - 1] < centres[i - 1 + 1];
      assert i < n - 1 ==> centres[i] < centres[i + 1];
      assert EdgeAt(centres, i) < centres[i] < EdgeAt(centres, i + 1);
    }
    forall i, j | 0 <= i < j < |edges|
      ensures edges[i] < edges[j]
    {
      StepsIncrease(edges, i, j);
    }
  }

  /** Edge k lies midway between its two centres; an outer edge mirrors the other edge of its bin about its centre. */
  ghost predicate Midway(edges: seq<real>, centres: seq<real>, k: int)
    requires |edges| == |centres| + 1 && 0 <= k <= |centres| && |centres| >= 2
  {
    var n := |centres|;
    if k == 0 then centres[0] - edges[0] == edges[1] - centres[0]
    else if k == n then edges[n] - centres[n - 1] == centres[n - 1] - edges[n - 1]
    else edges[k] - centres[k - 1] == centres[k] - edges[k]
  }

  /** Every interior edge is equidistant from its two centres, both outer bins are symmetric about theirs, and no other
      edges are. */
  lemma {:induction false} EdgesAreMidway(centres: seq<real>, edges: seq<real>)
    requires ValidCentres(centres) && |edges| == |centres| + 1
    ensures (forall k :: 0 <= k <= |centres| ==> Midway(edges, centres, k)) <==> edges == Edges(centres)
  {
    var n := |centres|;
    forall k | 0 <= k <= n
      ensures Midway(Edges(centres), centres, k)
    {}
    if forall k :: 0 <= k <= n ==> Midway(edges, centres, k) {
      assert Midway(edges, centres, 0) && Midway(edges, centres, n);
      forall k | 0 < k < n
        ensures edges[k] == EdgeAt(centres, k)
      {
        assert Midway(edges, centres, k);
      }
      assert edges[0] == EdgeAt(centres, 0) && edges[n] == EdgeAt(centres, n);
      assert forall k :: 0 <= k <= n ==> edges[k] == Edges(centres)[k];
    }
  }

  // ------------------------------------------------- the all-pairs definition

  /** Length of the intersection of [a, b] and [c, d]. */
  function Overlap(a: real, b: real, c: real, d: real): real {
    Max(0.0, Min(b, d) - Max(a, c))
  }

  /** Fraction of source bin i that falls in target bin t; zero outside the grids. */
  function Weight(se: seq<real>, te: seq<real>, t: int, i: int): real {
    if 0 <= t < |te| - 1 && 0 <= i < |se| - 1 && se[i] < se[i + 1]
    then Overlap(te[t], te[t + 1], se[i], se[i + 1]) / (se[i + 1] - se[i])
    else 0.0
  }

  lemma {:induction false} WeightIs(se: seq<real>, te: seq<real>, t: int, i: int, w: real, width: real)
    requires 0 <= t < |te| - 1 && 0 <= i < |se| - 1 && width == se[i + 1] - se[i] && width > 0.0
    requires Overlap(te[t], te[t + 1], se[i], se[i + 1]) == w * width
    ensures Weight(se, te, t, i) == w
  {
    var overlap := Overlap(te[t], te[t + 1], se[i], se[i + 1]);
    assert overlap / width == w;
  }

  ghost predicate Grids(se: seq<real>, te: seq<real>) {
    |se| >= 2 && |te| >= 2 && StrictlyIncreasing(se) && StrictlyIncreasing(te)
  }

  lemma {:induction false} WeightPositive(se: seq<real>, te: seq<real>, t: int, i: int)
    requires Grids(se, te)
    requires 0 <= t < |te| - 1 && 0 <= i < |se| - 1
    ensures Weight(se, te, t, i) >= 0.0
    ensures Weight(se, te, t, i) > 0.0 <==> se[i] < te[t + 1] && te[t] < se[i + 1]
  {
    var o := Overlap(te[t], te[t + 1], se[i], se[i + 1]);
    var w := se[i + 1] - se[i];
    assert w > 0.0;
    assert o >= 0.0;
    QuotientSign(o, w);
  }

  lemma {:induction false} QuotientSign(o: real, w: real)
    requires w > 0.0 && o >= 0.0
    ensures o / w >= 0.0 && (o / w > 0.0 <==> o > 0.0)
    ensures o <= w ==> o / w <= 1.0
    ensures o / w == 1.0 <==> o == w
  {
    var q := o / w;
    assert q * w == o;
    if q > 1.0 {
      assert (q - 1.0) * w > 0.0;
    }
  }

  /** A sparse row is exactly the positive weights of its target bin. */
  ghost predicate RowOf(row: map<int, real>, se: seq<real>, te: seq<real>, t: int) {
    && (forall i :: i in row <==> 0 <= i < |se| - 1 && Weight(se, te, t, i) > 0.0)
    && (forall i :: i in row ==> row[i] == Weight(se, te, t, i))
  }

  ghost predicate RowsOf(rows: seq<map<int, real>>, se: seq<real>, te: seq<real>) {
    |rows| == |te| - 1 && forall t :: 0 <= t < |rows| ==> RowOf(rows[t], se, te, t)
  }

  /** Source bins before `first` end, and source bins from `stop` on begin, outside the target bin. */
  lemma {:induction false} ScannedRowIsComplete(row: map<int, real>, se: seq<real>, te: seq<real>, t: int,
                                                first: int, stop: int)
    requires Grids(se, te) && 0 <= t < |te| - 1 && 0 <= first <= stop <= |se| - 1
    requires forall i :: i in row <==> first <= i < stop && Weight(se, te, t, i) > 0.0
    requires forall i :: i in row ==> row[i] == Weight(se, te, t, i)
    requires first > 0 ==> se[first] <= te[t]
    requires stop < |se| - 1 ==> te[t + 1] <= se[stop]
    ensures RowOf(row, se, te, t)
  {
    forall i | 0 <= i < |se| - 1
      ensures i in row <==> Weight(se, te, t, i) > 0.0
    {
      WeightPositive(se, te, t, i);
      if i < first {
        assert se[i + 1] <= se[first];
      } else if i >= stop {
        assert se[stop] <= se[i];
      }
    }
  }

  /** The forward-only two-pointer sweep: `sourceIndex` never moves back. */
  method Sweep(se: seq<real>, te: seq<real>) returns (weights: seq<map<int, real>>)
    requires Grids(se, te)
    ensures RowsOf(weights, se, te)
  {
    var n := |se| - 1;
    weights := seq(|te| - 1, _ => map[]);
    var sourceIndex := 0;
    for targetIndex := 0 to |te| - 1
      invariant |weights| == |te| - 1
      invariant 0 <= sourceIndex <= n
      invariant sourceIndex > 0 ==> se[sourceIndex] <= te[targetIndex]
      invariant forall t :: 0 <= t < targetIndex ==> RowOf(weights[t], se, te, t)
    {
      var lower, upper := te[targetIndex], te[targetIndex + 1];
      while sourceIndex < n && se[sourceIndex + 1] <= lower
        invariant 0 <= sourceIndex <= n
        invariant sourceIndex > 0 ==> se[sourceIndex] <= lower
      {
        sourceIndex := sourceIndex + 1;
      }
      var row: map<int, real> := map[];
      var candidate := sourceIndex;
      while candidate < n && se[candidate] < upper
        invariant sourceIndex <= candidate <= n
        invariant forall i :: i in row <==> sourceIndex <= i < candidate && Weight(se, te, targetIndex, i) > 0.0
        invariant forall i :: i in row ==> row[i] == Weight(se, te, targetIndex, i)
      {
        var overlap := Max(0.0, Min(upper, se[candidate + 1]) - Max(lower, se[candidate]));
        var width := se[candidate + 1] - se[candidate];
        QuotientSign(overlap, width);
        assert Weight(se, te, targetIndex, candidate) == overlap / width;
        if overlap > 0.0 && width > 0.0 {
          row := row[candidate := overlap / width];
        }
        candidate := candidate + 1;
      }
      ScannedRowIsComplete(row, se, te, targetIndex, sourceIndex, candidate);
      weights := weights[targetIndex := row];
    }
  }

  /** The source bins of one target bin are contiguous. */
  lemma {:induction false} RowIsContiguous(row: map<int, real>, se: seq<real>, te: seq<real>, t: int, i: int, j: int, k: int)
    requires Grids(se, te) && 0 <= t < |te| - 1
    requires RowOf(row, se, te, t)
    requires i < j < k && i in row && k in row
    ensures j in row
  {
    WeightPositive(se, te, t, i);
    WeightPositive(se, te, t, j);
    WeightPositive(se, te, t, k);
  }

  /** Consecutive target bins share at most one source bin; bins further apart share
      only source bins that cover every target bin between them. */
  lemma {:induction false} ConsecutiveRowsShareOne(rows: seq<map<int, real>>, se: seq<real>, te: seq<real>, t: int,
                                                   i: int, k: int)
    requires Grids(se, te) && RowsOf(rows, se, te)
    requires 0 <= t < |rows| - 1
    requires i in rows[t] && i in rows[t + 1] && k in rows[t] && k in rows[t + 1]
    ensures i == k
  {
    assert RowOf(rows[t], se, te, t) && RowOf(rows[t + 1], se, te, t + 1);
    WeightPositive(se, te, t, i);
    WeightPositive(se, te, t, k);
    WeightPositive(se, te, t + 1, i);
    WeightPositive(se, te, t + 1, k);
  }

  // ------------------------------------------------------- coverage and flux

  /** Fraction of source bin i covered by target bins 0 .. m-1. */
  ghost function Covered(se: seq<real>, te: seq<real>, m: int, i: int): real
    requires 0 <= m < |te| && 0 <= i < |se| - 1 && se[i] < se[i + 1]
  {
    Overlap(te[0], te[m], se[i], se[i + 1]) / (se[i + 1] - se[i])
  }

  /** The weights of one source bin sum to its covered fraction. */
  lemma {:induction false} ColumnSum(se: seq<real>, te: seq<real>, m: int, i: int, column: int -> real)
    requires Grids(se, te) && 0 <= m < |te| && 0 <= i < |se| - 1
    requires forall t :: 0 <= t < m ==> column(t) == Weight(se, te, t, i)
    ensures Sum(0, m, column) == Covered(se, te, m, i)
    decreases m
  {
    if m > 0 {
      ColumnSum(se, te, m - 1, i, column);
      assert te[0] <= te[m - 1] <= te[m];
      CoveredStep(te[0], te[m - 1], te[m], se[i], se[i + 1]);
    } else {
      assert Overlap(te[0], te[0], se[i], se[i + 1]) == 0.0;
    }
  }

  lemma {:induction false} CoveredStep(a: real, b: real, c: real, lower: real, upper: real)
    requires a <= b <= c && lower < upper
    ensures Overlap(a, b, lower, upper) / (upper - lower) + Overlap(b, c, lower, upper) / (upper - lower)
         == Overlap(a, c, lower, upper) / (upper - lower)
  {}

  /** No source bin is counted more than once, whatever the target range; a source
      bin inside the target range is counted exactly once. */
  lemma {:induction false} ColumnAtMostOne(se: seq<real>, te: seq<real>, i: int, column: int -> real)
    requires Grids(se, te) && 0 <= i < |se| - 1
    requires forall t :: 0 <= t < |te| - 1 ==> column(t) == Weight(se, te, t, i)
    ensures 0.0 <= Sum(0, |te| - 1, column) <= 1.0
    ensures Sum(0, |te| - 1, column) == 1.0 <==> te[0] <= se[i] && se[i + 1] <= te[|te| - 1]
  {
    var m := |te| - 1;
    ColumnSum(se, te, m, i, column);
    var o, w := Overlap(te[0], te[m], se[i], se[i + 1]), se[i + 1] - se[i];
    QuotientSign(o, w);
    assert te[0] < te[m];
    assert o == w <==> te[0] <= se[i] && se[i + 1] <= te[m];
  }

  /** The source bins cut by a target bin add up to the part of it they cover. */
  lemma {:induction false} RowLength(se: seq<real>, a: real, b: real, n: int, lengths: int -> real)
    requires 0 <= n < |se| && StrictlyIncreasing(se) && a < b
    requires forall i :: 0 <= i < n ==> lengths(i) == Overlap(a, b, se[i], se[i + 1])
    ensures Sum(0, n, lengths) == Overlap(se[0], se[n], a, b)
    decreases n
  {
    if n > 0 {
      RowLength(se, a, b, n - 1, lengths);
      assert se[0] <= se[n - 1] <= se[n];
    }
  }
}
