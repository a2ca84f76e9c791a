/** Merging demodulated orders onto the global grid: placement, scatter, weighted merge, covariances and quality. */
module MergeOrders {
  import opened Numeric
  import opened MergePixel
  import opened MergeCovariance
  import opened Merge

  // -------------------------------------------------------------- cross-covariances

  /** Adding w * u * c to a running sum; a non-finite c makes the sum non-finite even where a weight is zero. */
  function AddTerm(sum: Num, w: real, u: real, c: Num): Num {
    if sum.Val? && c.Val? then Val(sum.v + w * u * c.v) else Missing
  }

  ghost function CrossTo(first: seq<Cell>, second: seq<Cell>, covariances: seq<Num>, k: nat): Num
    requires k <= |covariances|
  {
    if Missing in covariances[..k] then Missing else Val(Sum(0, k, i => CrossTerm(first, second, covariances, i)))
  }

  lemma {:induction false} CrossStep(first: seq<Cell>, second: seq<Cell>, covariances: seq<Num>, k: nat)
    requires k < |covariances| == |first| == |second|
    ensures CrossTo(first, second, covariances, k + 1)
         == AddTerm(CrossTo(first, second, covariances, k), first[k].Weight(), second[k].Weight(), covariances[k])
  {
    assert covariances[..k + 1] == covariances[..k] + [covariances[k]];
  }

  lemma {:induction false} WholeCross(first: seq<Cell>, second: seq<Cell>, covariances: seq<Num>)
    ensures TotalWeight(first) > 0.0 && TotalWeight(second) > 0.0 ==>
      var cross := CrossTo(first, second, covariances, |covariances|);
      MergedCross(first, second, covariances)
        == if cross.Val? then Val(Ratio(cross.v, TotalWeight(first), TotalWeight(second))) else Missing
  {
    assert covariances[..|covariances|] == covariances;
    SumCongruence(0, |covariances|, i => CrossTerm(first, second, covariances, i), i => CrossTerm(first, second,
        covariances, i));
  }

  method AddCross(first: seq<real>, second: seq<real>, covariance: seq<Num>, numerator: array<Num>)
    requires numerator.Length == |first| == |second| == |covariance|
    modifies numerator
    ensures forall g :: 0 <= g < |first| ==> numerator[g] == AddTerm(old(numerator[g]), first[g], second[g], covariance[g])
  {
    for g := 0 to |first|
      invariant forall h :: 0 <= h < g ==> numerator[h] == AddTerm(old(numerator[h]), first[h], second[h], covariance[h])
      invariant forall h :: g <= h < |first| ==> numerator[h] == old(numerator[h])
    {
      numerator[g] := AddTerm(numerator[g], first[g], second[g], covariance[g]);
    }
  }

  method AddWeights(weight: seq<real>, total: array<real>)
    requires total.Length == |weight|
    modifies total
    ensures forall g :: 0 <= g < |weight| ==> total[g] == old(total[g]) + weight[g]
  {
    for g := 0 to |weight|
      invariant forall h :: 0 <= h < g ==> total[h] == old(total[h]) + weight[h]
      invariant forall h :: g <= h < |weight| ==> total[h] == old(total[h])
    {
      total[g] := total[g] + weight[g];
    }
  }

  method TotalWeights(rows: seq<seq<Cell>>, weights: seq<seq<real>>, size: nat) returns (total: seq<real>)
    requires Rectangular(rows, size) && |weights| == |rows| && AreWeights(weights, rows, size)
    ensures |total| == size && forall g :: 0 <= g < size ==> total[g] == TotalWeight(Vertical(rows, size, g))
  {
    var sums := new real[size](_ => 0.0);
    for i := 0 to |rows|
      invariant forall g :: 0 <= g < size ==> sums[g] == WeightTo(Vertical(rows, size, g), i)
    {
      AddWeights(weights[i], sums);
      forall g | 0 <= g < size
        ensures sums[g] == WeightTo(Vertical(rows, size, g), i + 1)
      {}
    }
    total := sums[..];
    forall g | 0 <= g < size
      ensures total[g] == TotalWeight(Vertical(rows, size, g))
    {}
  }

  ghost predicate AreCross(numerator: seq<Num>, first: seq<seq<Cell>>, second: seq<seq<Cell>>, covariances: seq<seq<Num>>,
                           size: nat, k: nat)
    requires Rectangular(first, size) && Rectangular(second, size) && Rectangular(covariances, size) && k <= |covariances|
  {
    |numerator| == size && forall g :: 0 <= g < size ==>
      numerator[g] == CrossTo(Vertical(first, size, g), Vertical(second, size, g), Vertical(covariances, size, g), k)
  }

  lemma {:induction false} AreCrossStep(numerator0: seq<Num>, numerator: seq<Num>, first: seq<seq<Cell>>,
                                        second: seq<seq<Cell>>,
                                        covariances: seq<seq<Num>>, size: nat, k: nat)
    requires Rectangular(first, size) && Rectangular(second, size) && Rectangular(covariances, size)
    requires k < |covariances| == |first| == |second| && AreCross(numerator0, first, second, covariances, size, k)
    requires |numerator| == size && forall g :: 0 <= g < size ==>
      numerator[g] == AddTerm(numerator0[g], first[k][g].Weight(), second[k][g].Weight(), covariances[k][g])
    ensures AreCross(numerator, first, second, covariances, size, k + 1)
  {
    forall g | 0 <= g < size
      ensures numerator[g]
           == CrossTo(Vertical(first, size, g), Vertical(second, size, g), Vertical(covariances, size, g), k + 1)
    {
      CrossStep(Vertical(first, size, g), Vertical(second, size, g), Vertical(covariances, size, g), k);
    }
  }

  method CrossNumerator(first: seq<seq<Cell>>, second: seq<seq<Cell>>, covariances: seq<seq<Num>>,
                        weights1: seq<seq<real>>, weights2: seq<seq<real>>, size: nat) returns (numerator: seq<Num>)
    requires Rectangular(first, size) && Rectangular(second, size) && Rectangular(covariances, size)
    requires |first| == |second| == |covariances| == |weights1| == |weights2|
    requires AreWeights(weights1, first, size) && AreWeights(weights2, second, size)
    ensures AreCross(numerator, first, second, covariances, size, |covariances|)
  {
    var sums := new Num[size](_ => Val(0.0));
    for i := 0 to |covariances|
      invariant AreCross(sums[..], first, second, covariances, size, i)
    {
      ghost var before := sums[..];
      AddCross(weights1[i], weights2[i], covariances[i], sums);
      AreCrossStep(before, sums[..], first, second, covariances, size, i);
    }
    numerator := sums[..];
  }

  method CrossCovariance(first: seq<seq<Cell>>, second: seq<seq<Cell>>, covariances: seq<seq<Num>>,
                         weights1: seq<seq<real>>, weights2: seq<seq<real>>, size: nat) returns (merged: seq<Num>)
    requires Rectangular(first, size) && Rectangular(second, size) && Rectangular(covariances, size)
    requires |first| == |second| == |covariances| == |weights1| == |weights2|
    requires AreWeights(weights1, first, size) && AreWeights(weights2, second, size)
    ensures |merged| == size && forall g :: 0 <= g < size ==>
      merged[g] == MergedCross(Vertical(first, size, g), Vertical(second, size, g), Vertical(covariances, size, g))
  {
    var numerator := CrossNumerator(first, second, covariances, weights1, weights2, size);
    var total1 := TotalWeights(first, weights1, size);
    var total2 := TotalWeights(second, weights2, size);
    merged := [];
    for g := 0 to size
      invariant |merged| == g
      invariant forall h :: 0 <= h < g ==>
        merged[h] == MergedCross(Vertical(first, size, h), Vertical(second, size, h), Vertical(covariances, size, h))
    {
      WholeCross(Vertical(first, size, g), Vertical(second, size, g), Vertical(covariances, size, g));
      var value := DivideCross(numerator[g], total1[g], total2[g]);
      merged := merged + [value];
    }
  }

  method DivideCross(numerator: Num, total1: real, total2: real) returns (value: Num)
    ensures value == if total1 > 0.0 && total2 > 0.0
                     then (if numerator.Val? then Val(Ratio(numerator.v, total1, total2)) else Missing)
                     else Val(0.0)
  {
    if total1 > 0.0 && total2 > 0.0 {
      PositiveProduct(total1, total2, total1 * total2);
      return if numerator.Val? then Val(numerator.v / (total1 * total2)) else Missing;
    }
    return Val(0.0);
  }

  // ------------------------------------------------------------------------- quality

  ghost function QualityTo(cells: seq<Cell>, dqs: seq<Quality>, k: nat): Quality
    requires k <= |cells| == |dqs|
  {
    if k == 0 then {} else QualityTo(cells, dqs, k - 1) + (if cells[k - 1].value.Val? then dqs[k - 1] else {})
  }

  ghost predicate CoveredTo(cells: seq<Cell>, k: nat)
    requires k <= |cells|
  {
    exists i :: 0 <= i < k && cells[i].value.Val?
  }

  /** The union over the orders with a finite intensity, or ORDER_GAP where there is none. */
  ghost function MergedQuality(cells: seq<Cell>, dqs: seq<Quality>): Quality
    requires |cells| == |dqs|
  {
    QualityTo(cells, dqs, |cells|) + (if CoveredTo(cells, |cells|) then {} else {ORDER_GAP})
  }

  lemma {:induction false} QualityToIff(cells: seq<Cell>, dqs: seq<Quality>, k: nat, bit: nat)
    requires k <= |cells| == |dqs|
    ensures bit in QualityTo(cells, dqs, k) <==> exists i :: 0 <= i < k && cells[i].value.Val? && bit in dqs[i]
    decreases k
  {
    if k > 0 {
      QualityToIff(cells, dqs, k - 1, bit);
    }
  }

  /** A merged pixel carries a flag exactly when an order with a finite intensity does; ORDER_GAP is also raised,
      exactly where no order has a finite intensity. */
  lemma {:induction false} MergedQualityIff(cells: seq<Cell>, dqs: seq<Quality>, bit: nat)
    requires |cells| == |dqs|
    ensures bit in MergedQuality(cells, dqs) <==>
      || (exists i :: 0 <= i < |cells| && cells[i].value.Val? && bit in dqs[i])
      || (bit == ORDER_GAP && forall i :: 0 <= i < |cells| ==> cells[i].value == Missing)
  {
    QualityToIff(cells, dqs, |cells|, bit);
  }

  method AddQuality(row: seq<Cell>, dqRow: seq<Quality>, dq: array<Quality>, covered: array<bool>)
    requires dq.Length == covered.Length == |row| == |dqRow|
    modifies dq, covered
    ensures forall g :: 0 <= g < |row| ==> dq[g] == old(dq[g]) + (if row[g].value.Val? then dqRow[g] else {})
    ensures forall g :: 0 <= g < |row| ==> covered[g] == (old(covered[g]) || row[g].value.Val?)
  {
    for g := 0 to |row|
      invariant forall h :: 0 <= h < g ==> dq[h] == old(dq[h]) + (if row[h].value.Val? then dqRow[h] else {})
      invariant forall h :: 0 <= h < g ==> covered[h] == (old(covered[h]) || row[h].value.Val?)
      invariant forall h :: g <= h < |row| ==> dq[h] == old(dq[h]) && covered[h] == old(covered[h])
    {
      if row[g].value.Val? {
        dq[g] := dq[g] + dqRow[g];
        covered[g] := true;
      }
    }
  }

  method MarkGaps(dq: array<Quality>, covered: array<bool>)
    requires dq.Length == covered.Length
    modifies dq
    ensures forall g :: 0 <= g < dq.Length ==> dq[g] == old(dq[g]) + (if old(covered[g]) then {} else {ORDER_GAP})
  {
    for g := 0 to dq.Length
      invariant forall h :: 0 <= h < g ==> dq[h] == old(dq[h]) + (if old(covered[h]) then {} else {ORDER_GAP})
      invariant forall h :: g <= h < dq.Length ==> dq[h] == old(dq[h])
      invariant covered[..] == old(covered[..])
    {
      if !covered[g] {
        dq[g] := dq[g] + {ORDER_GAP};
      }
    }
  }

  ghost predicate AreQualities(dq: seq<Quality>, covered: seq<bool>, rows: seq<seq<Cell>>, dqs: seq<seq<Quality>>,
                               size: nat, k: nat)
    requires Rectangular(rows, size) && Rectangular(dqs, size) && k <= |rows| == |dqs|
  {
    && |dq| == |covered| == size
    && (forall g :: 0 <= g < size ==> dq[g] == QualityTo(Vertical(rows, size, g), Vertical(dqs, size, g), k))
    && (forall g :: 0 <= g < size ==> covered[g] == CoveredTo(Vertical(rows, size, g), k))
  }

  lemma {:induction false} AreQualitiesStep(dq0: seq<Quality>, covered0: seq<bool>, dq: seq<Quality>, covered: seq<bool>,
                                            rows: seq<seq<Cell>>, dqs: seq<seq<Quality>>, size: nat, k: nat)
    requires Rectangular(rows, size) && Rectangular(dqs, size) && k < |rows| == |dqs|
    requires AreQualities(dq0, covered0, rows, dqs, size, k) && |dq| == |covered| == size
    requires forall g :: 0 <= g < size ==> dq[g] == dq0[g] + (if rows[k][g].value.Val? then dqs[k][g] else {})
    requires forall g :: 0 <= g < size ==> covered[g] == (covered0[g] || rows[k][g].value.Val?)
    ensures AreQualities(dq, covered, rows, dqs, size, k + 1)
  {
    forall g | 0 <= g < size
      ensures dq[g] == QualityTo(Vertical(rows, size, g), Vertical(dqs, size, g), k + 1)
      ensures covered[g] == CoveredTo(Vertical(rows, size, g), k + 1)
    {
      CoveredStep(Vertical(rows, size, g), k);
    }
  }

  lemma {:induction false} CoveredStep(cells: seq<Cell>, k: nat)
    requires k < |cells|
    ensures CoveredTo(cells, k + 1) == (CoveredTo(cells, k) || cells[k].value.Val?)
  {}

  method MergeQuality(rows: seq<seq<Cell>>, dqs: seq<seq<Quality>>, size: nat) returns (r: seq<Quality>)
    requires Rectangular(rows, size) && Rectangular(dqs, size) && |rows| == |dqs|
    ensures |r| == size
    ensures forall g :: 0 <= g < size ==> r[g] == MergedQuality(Vertical(rows, size, g), Vertical(dqs, size, g))
  {
    var dq, covered := new Quality[size](_ => {}), new bool[size](_ => false);
    for i := 0 to |rows|
      invariant AreQualities(dq[..], covered[..], rows, dqs, size, i)
    {
      ghost var dq0, covered0 := dq[..], covered[..];
      AddQuality(rows[i], dqs[i], dq, covered);
      AreQualitiesStep(dq0, covered0, dq[..], covered[..], rows, dqs, size, i);
    }
    ghost var union, any := dq[..], covered[..];
    MarkGaps(dq, covered);
    r := dq[..];
    assert forall g :: 0 <= g < size ==> r[g] == union[g] + (if any[g] then {} else {ORDER_GAP});
  }

  // ---------------------------------------------------------------- placing and scattering

  ghost predicate Placed(orders: seq<OrderProduct>, grid: seq<real>, starts: seq<int>) {
    && AllShaped(orders) && |starts| == |orders|
    && forall i :: 0 <= i < |orders| ==> Place(grid, orders[i].wavelength) == Some(starts[i])
  }

  /** The start of every order in the grid; fails at the first order that is not a subset of it. */
  method PlaceAll(orders: seq<OrderProduct>, grid: seq<real>) returns (r: Result<seq<int>>)
    requires AllShaped(orders)
    ensures r.Success? ==> Placed(orders, grid, r.value)
    ensures r.Failure? <==> exists i :: 0 <= i < |orders| && Place(grid, orders[i].wavelength) == None
  {
    var starts := [];
    for i := 0 to |orders|
      invariant |starts| == i && forall j :: 0 <= j < i ==> Place(grid, orders[j].wavelength) == Some(starts[j])
    {
      var start := Place(grid, orders[i].wavelength);
      if start.None? {
        return Failure("order is not a subset of the frozen L3 grid");
      }
      starts := starts + [start.value];
    }
    r := Success(starts);
  }

  /** A full-size row: missing outside the order, its samples from the start on. */
  method Scatter(order: OrderProduct, start: int, field: Field, size: nat) returns (row: seq<Cell>)
    requires order.Shaped() && 0 <= start <= start + |order.wavelength| <= size
    ensures |row| == size && forall g :: 0 <= g < size ==> row[g] == CellAt(order, start, field, g)
  {
    var cells := new Cell[size](_ => OUTSIDE);
    for k := 0 to |order.wavelength|
      invariant forall g :: 0 <= g < size ==>
        cells[g] == if g < start + k then CellAt(order, start, field, g) else OUTSIDE
    {
      cells[start + k] := CellOf(order.samples[k], field, order.blaze[k]);
    }
    row := cells[..];
  }

  method ScatterField(orders: seq<OrderProduct>, starts: seq<int>, field: Field, grid: seq<real>) returns (rows: seq<seq<Cell>>)
    requires Placed(orders, grid, starts)
    ensures |rows| == |orders| && Rectangular(rows, |grid|)
    ensures forall g :: 0 <= g < |grid| ==> Vertical(rows, |grid|, g) == Column(orders, starts, field, g)
  {
    rows := [];
    for i := 0 to |orders|
      invariant |rows| == i && Rectangular(rows, |grid|)
      invariant forall j, g :: 0 <= j < i && 0 <= g < |grid| ==> rows[j][g] == CellAt(orders[j], starts[j], field, g)
    {
      var row := Scatter(orders[i], starts[i], field, |grid|);
      rows := rows + [row];
    }
  }

  method ScatterCovariance(orders: seq<OrderProduct>, starts: seq<int>, pair: Pair, grid: seq<real>)
    returns (rows: seq<seq<Num>>)
    requires Placed(orders, grid, starts)
    ensures |rows| == |orders| && Rectangular(rows, |grid|)
    ensures forall g :: 0 <= g < |grid| ==> Vertical(rows, |grid|, g) == CovarianceColumn(orders, starts, pair, g)
  {
    rows := [];
    for i := 0 to |orders|
      invariant |rows| == i && Rectangular(rows, |grid|)
      invariant forall j, g :: 0 <= j < i && 0 <= g < |grid| ==> rows[j][g] == CovarianceAtPixel(orders[j], starts[j], pair, g)
    {
      var row := seq(|grid|, g requires 0 <= g < |grid| && orders[i].Shaped() => CovarianceAtPixel(orders[i],
          starts[i], pair, g));
      rows := rows + [row];
    }
  }

  ghost function QualityColumn(orders: seq<OrderProduct>, starts: seq<int>, g: int): (r: seq<Quality>)
    requires AllShaped(orders) && |starts| == |orders|
    ensures |r| == |orders|
  {
    seq(|orders|, i requires 0 <= i < |orders| => QualityAt(orders[i], starts[i], g))
  }

  method ScatterQuality(orders: seq<OrderProduct>, starts: seq<int>, grid: seq<real>) returns (rows: seq<seq<Quality>>)
    requires Placed(orders, grid, starts)
    ensures |rows| == |orders| && Rectangular(rows, |grid|)
    ensures forall g :: 0 <= g < |grid| ==> Vertical(rows, |grid|, g) == QualityColumn(orders, starts, g)
  {
    rows := [];
    for i := 0 to |orders|
      invariant |rows| == i && Rectangular(rows, |grid|)
      invariant forall j, g :: 0 <= j < i && 0 <= g < |grid| ==> rows[j][g] == QualityAt(orders[j], starts[j], g)
    {
      var row := seq(|grid|, g requires 0 <= g < |grid| && orders[i].Shaped() => QualityAt(orders[i], starts[i], g));
      rows := rows + [row];
    }
  }

  // ------------------------------------------------------------------------- the merge

  datatype MergedField = MergedField(values: seq<Num>, variances: seq<Num>)

  datatype Merged = Merged(intensity: MergedField, polarization: MergedField, null1: MergedField, null2: MergedField,
                           c01: seq<Num>, c02: seq<Num>, c12: seq<Num>, dq: seq<Quality>)

  ghost predicate IsMergedField(r: MergedField, orders: seq<OrderProduct>, starts: seq<int>, field: Field, size: nat)
    requires AllShaped(orders) && |starts| == |orders|
  {
    && |r.values| == |r.variances| == size
    && (forall g :: 0 <= g < size ==> r.values[g] == MergedValue(Column(orders, starts, field, g)))
    && (forall g :: 0 <= g < size ==> r.variances[g] == MergedVariance(Column(orders, starts, field, g)))
  }

  ghost predicate IsMergedCross(r: seq<Num>, orders: seq<OrderProduct>, starts: seq<int>, pair: Pair, size: nat)
    requires AllShaped(orders) && |starts| == |orders|
  {
    |r| == size && forall g :: 0 <= g < size ==>
      r[g] == MergedCross(Column(orders, starts, First(pair), g), Column(orders, starts, Second(pair), g),
                          CovarianceColumn(orders, starts, pair, g))
  }

  ghost predicate IsMergedQuality(r: seq<Quality>, orders: seq<OrderProduct>, starts: seq<int>, size: nat)
    requires AllShaped(orders) && |starts| == |orders|
  {
    |r| == size && forall g :: 0 <= g < size ==>
      r[g] == MergedQuality(Column(orders, starts, Intensity, g), QualityColumn(orders, starts, g))
  }

  ghost predicate IsMerge(r: Merged, orders: seq<OrderProduct>, starts: seq<int>, size: nat)
    requires AllShaped(orders) && |starts| == |orders|
  {
    && IsMergedField(r.intensity, orders, starts, Intensity, size)
    && IsMergedField(r.polarization, orders, starts, Polarization, size)
    && IsMergedField(r.null1, orders, starts, Null1, size)
    && IsMergedField(r.null2, orders, starts, Null2, size)
    && IsMergedCross(r.c01, orders, starts, P1, size)
    && IsMergedCross(r.c02, orders, starts, P2, size)
    && IsMergedCross(r.c12, orders, starts, N12, size)
    && IsMergedQuality(r.dq, orders, starts, size)
  }

  method MergeField(orders: seq<OrderProduct>, starts: seq<int>, field: Field, grid: seq<real>)
    returns (r: MergedField, rows: seq<seq<Cell>>, weights: seq<seq<real>>)
    requires Placed(orders, grid, starts)
    ensures IsMergedField(r, orders, starts, field, |grid|)
    ensures |rows| == |weights| == |orders| && Rectangular(rows, |grid|) && AreWeights(weights, rows, |grid|)
    ensures forall g :: 0 <= g < |grid| ==> Vertical(rows, |grid|, g) == Column(orders, starts, field, g)
  {
    rows := ScatterField(orders, starts, field, grid);
    var values, variances;
    values, variances, weights := WeightedMerge(rows, |grid|);
    r := MergedField(values, variances);
  }

  method MergePair(orders: seq<OrderProduct>, starts: seq<int>, pair: Pair, grid: seq<real>, first: seq<seq<Cell>>,
                   weights1: seq<seq<real>>, second: seq<seq<Cell>>, weights2: seq<seq<real>>) returns (r: seq<Num>)
    requires Placed(orders, grid, starts)
    requires |first| == |weights1| == |orders| && Rectangular(first, |grid|) && AreWeights(weights1, first, |grid|)
    requires |second| == |weights2| == |orders| && Rectangular(second, |grid|) && AreWeights(weights2, second, |grid|)
    requires forall g :: 0 <= g < |grid| ==> Vertical(first, |grid|, g) == Column(orders, starts, First(pair), g)
    requires forall g :: 0 <= g < |grid| ==> Vertical(second, |grid|, g) == Column(orders, starts, Second(pair), g)
    ensures IsMergedCross(r, orders, starts, pair, |grid|)
  {
    var covariances := ScatterCovariance(orders, starts, pair, grid);
    r := CrossCovariance(first, second, covariances, weights1, weights2, |grid|);
  }

  method MergePolarimetricOrders(orders: seq<OrderProduct>, grid: seq<real>) returns (r: Result<Merged>, starts: seq<int>)
    requires AllShaped(orders)
    ensures r.Failure? <==> orders == [] || exists i :: 0 <= i < |orders| && Place(grid, orders[i].wavelength) == None
    ensures r.Success? ==> Placed(orders, grid, starts) && IsMerge(r.value, orders, starts, |grid|)
  {
    starts := [];
    if |orders| == 0 {
      return Failure("at least one demodulated order is required"), starts;
    }
    var places := PlaceAll(orders, grid);
    if places.Failure? {
      return Failure(places.error), starts;
    }
    starts := places.value;
    var intensity, rows, _ := MergeField(orders, starts, Intensity, grid);
    var polarization, rowsP, weightsP := MergeField(orders, starts, Polarization, grid);
    var null1, rows1, weights1 := MergeField(orders, starts, Null1, grid);
    var null2, rows2, weights2 := MergeField(orders, starts, Null2, grid);
    var dqs := ScatterQuality(orders, starts, grid);
    var dq := MergeQuality(rows, dqs, |grid|);
    var c01 := MergePair(orders, starts, P1, grid, rowsP, weightsP, rows1, weights1);
    var c02 := MergePair(orders, starts, P2, grid, rowsP, weightsP, rows2, weights2);
    var c12 := MergePair(orders, starts, N12, grid, rows1, weights1, rows2, weights2);
    r := Success(Merged(intensity, polarization, null1, null2, c01, c02, c12, dq));
  }
}
