/** Max-pooling a detector image to the size of a preview. */
module Preview {
  import opened Numeric

  // ----------------------------------------------------------------- output dimensions

  /** Rounding to the nearest integer, ties to even. */
  function Round(x: real): int {
    var f := x.Floor;
    var d := x - f as real;
    if d < 0.5 then f else if d > 0.5 then f + 1 else if f % 2 == 0 then f else f + 1
  }

  function Clamp(n: int, low: int, high: int): int {
    var m := if n < high then n else high;
    if m < low then low else m
  }

  function ScaleOf(rows: nat, columns: nat, maxWidth: int, maxHeight: int): real
    requires rows >= 1 && columns >= 1
  {
    Min(1.0, Min(maxWidth as real / columns as real, maxHeight as real / rows as real))
  }

  function OutputSize(n: nat, scale: real): int { Clamp(Round(n as real * scale), 1, n) }

  lemma {:induction false} ScaledAtMost(n: nat, scale: real, limit: int)
    requires n >= 1 && scale <= limit as real / n as real
    ensures n as real * scale <= limit as real
  {
    var q := limit as real / n as real;
    assert q * n as real == limit as real;
  }

  /** The preview fits the limits, is never empty and never larger than the image. */
  lemma {:induction false} OutputFits(rows: nat, columns: nat, maxWidth: int, maxHeight: int)
    requires rows >= 1 && columns >= 1 && maxWidth >= 1 && maxHeight >= 1
    ensures var scale := ScaleOf(rows, columns, maxWidth, maxHeight);
      && 1 <= OutputSize(rows, scale) <= rows && OutputSize(rows, scale) <= maxHeight
      && 1 <= OutputSize(columns, scale) <= columns && OutputSize(columns, scale) <= maxWidth
  {
    var scale := ScaleOf(rows, columns, maxWidth, maxHeight);
    SizeFits(rows, scale, maxHeight);
    SizeFits(columns, scale, maxWidth);
  }

  lemma {:induction false} SizeFits(n: nat, scale: real, limit: int)
    requires n >= 1 && limit >= 1 && scale <= limit as real / n as real
    ensures 1 <= OutputSize(n, scale) <= n && OutputSize(n, scale) <= limit
  {
    ScaledAtMost(n, scale, limit);
  }

  /** The aspect ratio is kept to half a pixel: each dimension is the scaled one rounded, unless that would be zero. */
  lemma {:induction false} SizeIsRounded(n: nat, scale: real)
    requires n >= 1 && 0.0 < scale <= 1.0
    ensures OutputSize(n, scale) == 1 || -0.5 <= OutputSize(n, scale) as real - n as real * scale <= 0.5
  {
    var x := n as real * scale;
    NonNegativeProduct(n as real, 1.0 - scale, n as real * (1.0 - scale));
    assert x <= n as real;
  }

  /** The scale is the largest one up to 1 at which the image fits the limits. */
  lemma {:induction false} ScaleIsLargest(rows: nat, columns: nat, maxWidth: int, maxHeight: int, scale: real)
    requires rows >= 1 && columns >= 1
    ensures scale <= ScaleOf(rows, columns, maxWidth, maxHeight) <==>
      scale <= 1.0 && columns as real * scale <= maxWidth as real && rows as real * scale <= maxHeight as real
  {
    FitsIff(columns, maxWidth, scale);
    FitsIff(rows, maxHeight, scale);
  }

  lemma {:induction false} FitsIff(n: nat, limit: int, scale: real)
    requires n >= 1
    ensures scale <= limit as real / n as real <==> n as real * scale <= limit as real
  {
    var q, m := limit as real / n as real, n as real;
    assert q * m == limit as real;
    if scale <= q {
      NonNegativeProduct(m, q - scale, m * (q - scale));
    } else {
      PositiveProduct(m, scale - q, m * (scale - q));
    }
  }

  /** Rounding is to the nearest integer, and to the even one of two. */
  lemma {:induction false} RoundIs(x: real, n: int)
    ensures Round(x) == n <==> -0.5 <= x - n as real <= 0.5 && (Abs(x - n as real) == 0.5 ==> n % 2 == 0)
  {}

  /** An image that fits the limits keeps its size. */
  lemma {:induction false} FittingIsKept(rows: nat, columns: nat, maxWidth: int, maxHeight: int)
    requires 1 <= columns <= maxWidth && 1 <= rows <= maxHeight
    ensures var scale := ScaleOf(rows, columns, maxWidth, maxHeight);
      scale == 1.0 && OutputSize(rows, scale) == rows && OutputSize(columns, scale) == columns
  {
    ScaleIsLargest(rows, columns, maxWidth, maxHeight, 1.0);
    RoundIs(rows as real, rows);
    RoundIs(columns as real, columns);
  }

  // ------------------------------------------------------------------------ block edges

  /** Edge k of n blocks over a range of size. */
  function EdgeOf(size: nat, n: nat, k: nat): (e: int)
    requires n >= 1
  {
    k * size / n
  }

  lemma {:induction false} MultipleAtLeast(d: int, n: int)
    requires n >= 1 && d >= 1
    ensures d * n >= n
  {}

  lemma {:induction false} SameQuotient(n: int, p: int, s: int, q: int, r: int)
    requires n >= 1 && p * n + s <= q * n + r && 0 <= s && r < n
    ensures p <= q
  {
    assert (p - q) * n == p * n - q * n;
    if p > q {
      MultipleAtLeast(p - q, n);
    }
  }

  lemma {:induction false} FloorLe(a: int, b: int, n: int)
    requires n >= 1 && a <= b
    ensures a / n <= b / n
  {
    SameQuotient(n, a / n, a % n, b / n, b % n);
  }

  lemma {:induction false} QuotientIs(a: int, n: int, q: int, r: int)
    requires n >= 1 && a == q * n + r && 0 <= r < n
    ensures a / n == q
  {
    SameQuotient(n, a / n, a % n, q, r);
    SameQuotient(n, q, r, a / n, a % n);
  }

  lemma {:induction false} FloorStep(a: int, n: int)
    requires n >= 1
    ensures (a + n) / n == a / n + 1
  {
    var q := a / n;
    assert (q + 1) * n == q * n + n;
    QuotientIs(a + n, n, q + 1, a % n);
  }

  /** With at most one block per pixel, the edges start at 0, end at the size and strictly increase. */
  lemma {:induction false} EdgesPartition(size: nat, n: nat, k: nat)
    requires 1 <= n <= size && k < n
    ensures EdgeOf(size, n, 0) == 0 && EdgeOf(size, n, n) == size
    ensures EdgeOf(size, n, k) < EdgeOf(size, n, k + 1)
  {
    QuotientIs(n * size, n, size, 0);
    QuotientIs(0, n, 0, 0);
    FloorStep(k * size, n);
    assert k * size + n <= (k + 1) * size;
    FloorLe(k * size + n, (k + 1) * size, n);
  }

  lemma {:induction false} EdgeInside(size: nat, n: nat, k: nat)
    requires 1 <= n <= size && k <= n
    ensures 0 <= EdgeOf(size, n, k) <= size
    decreases n - k
  {
    QuotientIs(n * size, n, size, 0);
    assert k * size <= n * size;
    FloorLe(k * size, n * size, n);
    FloorLe(0, k * size, n);
    QuotientIs(0, n, 0, 0);
  }

  lemma {:induction false} EdgesOrdered(size: nat, n: nat, k: nat, m: nat)
    requires 1 <= n <= size && k <= m <= n
    ensures EdgeOf(size, n, k) <= EdgeOf(size, n, m)
    decreases m - k
  {
    if k < m {
      EdgesPartition(size, n, k);
      EdgesOrdered(size, n, k + 1, m);
    }
  }

  /** The blocks are as even as they can be: the first k of them hold k / n of the pixels, rounded down, and no two blocks
      differ by more than one pixel. */
  lemma {:induction false} BlocksAreEven(size: nat, n: nat, k: nat)
    requires 1 <= n <= size && k < n
    ensures 0 <= k * size - EdgeOf(size, n, k) * n < n
    ensures size / n <= EdgeOf(size, n, k + 1) - EdgeOf(size, n, k) <= size / n + 1
  {
    var a, b, q := EdgeOf(size, n, k), EdgeOf(size, n, k + 1), size / n;
    assert k * size == a * n + k * size % n && (k + 1) * size == b * n + (k + 1) * size % n && size == q * n + size % n;
    assert (k + 1) * size == k * size + size;
    assert (b - a - q) * n == b * n - a * n - q * n;
    BetweenMultiples(b - a - q, n);
  }

  lemma {:induction false} BetweenMultiples(d: int, n: int)
    requires n >= 1 && -n < d * n < 2 * n
    ensures 0 <= d <= 1
  {
    if d < 0 {
      MultipleAtLeast(-d, n);
    } else if d > 1 {
      MultipleAtLeast(d - 1, n);
    }
  }

  ghost predicate InBlock(size: nat, n: nat, k: nat, x: int)
    requires n >= 1
  {
    EdgeOf(size, n, k) <= x < EdgeOf(size, n, k + 1)
  }

  /** Every pixel lies in a block. */
  lemma {:induction false} BlockOf(size: nat, n: nat, x: nat, upTo: nat) returns (k: nat)
    requires 1 <= n <= size && upTo <= n && x < EdgeOf(size, n, upTo)
    ensures k < upTo && InBlock(size, n, k, x)
  {
    EdgesPartition(size, n, 0);
    k := upTo - 1;
    if x < EdgeOf(size, n, k) {
      k := BlockOf(size, n, x, k);
    }
  }

  /** And in only one. */
  lemma {:induction false} OneBlock(size: nat, n: nat, x: int, k: nat, m: nat)
    requires 1 <= n <= size && k < n && m < n && InBlock(size, n, k, x) && InBlock(size, n, m, x)
    ensures k == m
  {
    if k < m {
      EdgesOrdered(size, n, k + 1, m);
    } else if m < k {
      EdgesOrdered(size, n, m + 1, k);
    }
  }

  // ---------------------------------------------------------------------------- maxima

  /** The larger of two values, where a missing one counts as minus infinity. */
  function Larger(a: Num, b: Num): Num {
    if a == Missing then b else if b == Missing then a else Val(Max(a.v, b.v))
  }

  type Image = seq<seq<Num>>

  ghost predicate RowMaximum(row: seq<Num>, lo: int, hi: int, v: Num)
    requires 0 <= lo <= hi <= |row|
  {
    && (v == Missing <==> forall c :: lo <= c < hi ==> row[c] == Missing)
    && (v.Val? ==> v in row[lo..hi] && forall c :: lo <= c < hi && row[c].Val? ==> row[c].v <= v.v)
  }

  /** v is the largest finite pixel of the rectangle, missing when it has none. */
  ghost predicate BlockMaximum(image: Image, columns: nat, r0: int, r1: int, c0: int, c1: int, v: Num)
    requires Rectangular(image, columns) && 0 <= r0 <= r1 <= |image| && 0 <= c0 <= c1 <= columns
  {
    && (v == Missing <==> forall r, c :: r0 <= r < r1 && c0 <= c < c1 ==> image[r][c] == Missing)
    && (v.Val? ==> exists r, c :: r0 <= r < r1 && c0 <= c < c1 && image[r][c] == v)
    && (v.Val? ==> forall r, c :: r0 <= r < r1 && c0 <= c < c1 && image[r][c].Val? ==> image[r][c].v <= v.v)
  }

  method ReduceRow(row: seq<Num>, lo: int, hi: int) returns (v: Num)
    requires 0 <= lo <= hi <= |row|
    ensures RowMaximum(row, lo, hi, v)
  {
    v := Missing;
    for c := lo to hi
      invariant RowMaximum(row, lo, c, v)
    {
      v := Larger(v, row[c]);
      assert row[lo..c + 1] == row[lo..c] + [row[c]];
    }
  }

  /** v is the maximum of the rows start .. end - 1 over column block k. */
  ghost predicate BandPooled(image: Image, columns: nat, start: int, end: int, n: nat, k: nat, v: Num)
    requires Rectangular(image, columns) && 0 <= start <= end <= |image| && 1 <= n <= columns && k < n
  {
    && 0 <= EdgeOf(columns, n, k) <= EdgeOf(columns, n, k + 1) <= columns
    && BlockMaximum(image, columns, start, end, EdgeOf(columns, n, k), EdgeOf(columns, n, k + 1), v)
  }

  /** The maxima of the rows start .. end - 1 over each of the n column blocks. */
  method PoolRow(image: Image, columns: nat, start: int, end: int, n: nat) returns (maxima: seq<Num>)
    requires Rectangular(image, columns) && 0 <= start <= end <= |image| && 1 <= n <= columns
    ensures |maxima| == n && forall k :: 0 <= k < n ==> BandPooled(image, columns, start, end, n, k, maxima[k])
  {
    maxima := [];
    for k := 0 to n
      invariant |maxima| == k
      invariant forall j :: 0 <= j < k ==> BandPooled(image, columns, start, end, n, j, maxima[j])
    {
      EdgesPartition(columns, n, k);
      EdgeInside(columns, n, k);
      EdgeInside(columns, n, k + 1);
      var v := PoolBlock(image, columns, start, end, EdgeOf(columns, n, k), EdgeOf(columns, n, k + 1));
      maxima := maxima + [v];
    }
  }

  method PoolBlock(image: Image, columns: nat, r0: int, r1: int, c0: int, c1: int) returns (v: Num)
    requires Rectangular(image, columns) && 0 <= r0 <= r1 <= |image| && 0 <= c0 <= c1 <= columns
    ensures BlockMaximum(image, columns, r0, r1, c0, c1, v)
  {
    v := Missing;
    for r := r0 to r1
      invariant BlockMaximum(image, columns, r0, r, c0, c1, v)
    {
      var w := ReduceRow(image[r], c0, c1);
      v := Larger(v, w);
    }
  }

  ghost predicate RowPooled(image: Image, columns: nat, m: nat, n: nat, o: nat, maxima: seq<Num>)
    requires Rectangular(image, columns) && 1 <= m <= |image| && 1 <= n <= columns && o < m
  {
    |maxima| == n && forall k :: 0 <= k < n ==> CellPooled(image, columns, m, n, o, k, maxima[k])
  }

  /** Output pixel (o, k) is the maximum of its block. */
  ghost predicate CellPooled(image: Image, columns: nat, m: nat, n: nat, o: nat, k: nat, v: Num)
    requires Rectangular(image, columns) && 1 <= m <= |image| && 1 <= n <= columns && o < m && k < n
  {
    && 0 <= EdgeOf(|image|, m, o) <= EdgeOf(|image|, m, o + 1) <= |image|
    && BandPooled(image, columns, EdgeOf(|image|, m, o), EdgeOf(|image|, m, o + 1), n, k, v)
  }

  ghost predicate IsPooled(image: Image, columns: nat, sampled: Image, m: nat, n: nat)
    requires Rectangular(image, columns) && 1 <= m <= |image| && 1 <= n <= columns
  {
    |sampled| == m && forall o :: 0 <= o < m ==> RowPooled(image, columns, m, n, o, sampled[o])
  }

  lemma {:induction false} IdentityEdges(size: nat, k: nat)
    requires size >= 1
    ensures EdgeOf(size, size, k) == k
  {
    QuotientIs(k * size, size, k, 0);
  }

  /** An image that already has the output size is its own pooling. */
  lemma {:induction false} IdentityIsPooled(image: Image, columns: nat)
    requires |image| >= 1 && columns >= 1 && Rectangular(image, columns)
    ensures IsPooled(image, columns, image, |image|, columns)
  {
    forall o, k | 0 <= o < |image| && 0 <= k < columns
      ensures CellPooled(image, columns, |image|, columns, o, k, image[o][k])
    {
      IdentityEdges(|image|, o);
      IdentityEdges(|image|, o + 1);
      IdentityEdges(columns, k);
      IdentityEdges(columns, k + 1);
    }
  }

  /** Every output pixel is the largest finite pixel of its block. */
  method DownsampleImage(image: Image, columns: nat, maxWidth: int, maxHeight: int) returns (r: Result<Image>, m: nat, n: nat)
    requires Rectangular(image, columns)
    ensures r.Success? <==> |image| >= 1 && columns >= 1 && maxWidth >= 1 && maxHeight >= 1
    ensures r.Success? ==> 1 <= m <= |image| && 1 <= n <= columns && m <= maxHeight && n <= maxWidth
    ensures r.Success? ==> IsPooled(image, columns, r.value, m, n)
  {
    m, n := 0, 0;
    if |image| < 1 || columns < 1 {
      return Failure("image dimensions must be non-zero"), m, n;
    }
    if maxWidth < 1 || maxHeight < 1 {
      return Failure("preview dimensions must be positive"), m, n;
    }
    var scale := ScaleOf(|image|, columns, maxWidth, maxHeight);
    OutputFits(|image|, columns, maxWidth, maxHeight);
    m, n := OutputSize(|image|, scale), OutputSize(columns, scale);
    if m == |image| && n == columns {
      IdentityIsPooled(image, columns);
      return Success(image), m, n;
    }
    var sampled: Image := [];
    for o := 0 to m
      invariant |sampled| == o && forall j :: 0 <= j < o ==> RowPooled(image, columns, m, n, j, sampled[j])
    {
      EdgesPartition(|image|, m, o);
      EdgeInside(|image|, m, o);
      EdgeInside(|image|, m, o + 1);
      var maxima := PoolRow(image, columns, EdgeOf(|image|, m, o), EdgeOf(|image|, m, o + 1), n);
      assert RowPooled(image, columns, m, n, o, maxima);
      sampled := sampled + [maxima];
    }
    r := Success(sampled);
  }

  // ------------------------------------------------------------------------- no loss

  /** No bright pixel is lost: every finite pixel is covered by an output pixel at least as bright. */
  lemma {:induction false} PixelSurvives(image: Image, columns: nat, sampled: Image, m: nat, n: nat, r: nat, c: nat)
    returns (o: nat, k: nat)
    requires Rectangular(image, columns) && 1 <= m <= |image| && 1 <= n <= columns
    requires IsPooled(image, columns, sampled, m, n) && r < |image| && c < columns && image[r][c].Val?
    ensures o < m && k < n && InBlock(|image|, m, o, r) && InBlock(columns, n, k, c)
    ensures |sampled| == m && |sampled[o]| == n && sampled[o][k].Val? && image[r][c].v <= sampled[o][k].v
  {
    EdgesPartition(|image|, m, 0);
    EdgesPartition(columns, n, 0);
    o := BlockOf(|image|, m, r, m);
    k := BlockOf(columns, n, c, n);
    assert RowPooled(image, columns, m, n, o, sampled[o]);
    assert CellPooled(image, columns, m, n, o, k, sampled[o][k]);
  }

  ghost predicate IsMaximum(image: Image, v: real) {
    && (exists r, c :: 0 <= r < |image| && 0 <= c < |image[r]| && image[r][c] == Val(v))
    && (forall r, c :: 0 <= r < |image| && 0 <= c < |image[r]| && image[r][c].Val? ==> image[r][c].v <= v)
  }

  /** The preview has the same largest finite value as the image. */
  lemma {:induction false} MaximumPreserved(image: Image, columns: nat, sampled: Image, m: nat, n: nat, v: real)
    requires Rectangular(image, columns) && 1 <= m <= |image| && 1 <= n <= columns
    requires IsPooled(image, columns, sampled, m, n) && IsMaximum(image, v)
    ensures IsMaximum(sampled, v)
  {
    var r, c :| 0 <= r < |image| && 0 <= c < |image[r]| && image[r][c] == Val(v);
    var o, k := PixelSurvives(image, columns, sampled, m, n, r, c);
    forall i, j | 0 <= i < |sampled| && 0 <= j < |sampled[i]| && sampled[i][j].Val?
      ensures sampled[i][j].v <= v
    {}
  }
}
