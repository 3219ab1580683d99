/** The edge-band colour average of `extract_edge_average` (ambilight.py:52-74),
    taken from the frame after it has been resized to 80x45.

    numpy takes the top and bottom five rows and the left and right five
    columns, stacks all their pixels into one list (so the corner pixels appear
    twice) and averages each channel, truncating the mean to an integer. The
    model builds that list of samples as the code does, and characterises its
    per-channel sum by the four rectangles it covers. */
module EdgeBands {
  import opened Colors

  /** Rows of pixels, top row first; each row is left to right. */
  type Grid = seq<seq<Color>>

  /** Thickness of each border band (ambilight.py:59). */
  const EDGE_THICKNESS := 5

  /** The size every frame is resized to before the bands are taken (ambilight.py:55). */
  const RESIZED_WIDTH := 80
  const RESIZED_HEIGHT := 45

  function Height(g: Grid): nat {
    |g|
  }

  function Width(g: Grid): nat {
    if |g| == 0 then 0 else |g[0]|
  }

  predicate Rectangular(g: Grid) {
    forall i :: 0 <= i < |g| ==> |g[i]| == Width(g)
  }

  /** Rectangular and at least as tall and as wide as a band is thick, so
      that each slice takes exactly five rows or columns. */
  predicate HasBands(g: Grid) {
    Rectangular(g) && Height(g) >= EDGE_THICKNESS && Width(g) >= EDGE_THICKNESS
  }

  predicate AllInGamut(g: Grid) {
    forall i, j :: 0 <= i < |g| && 0 <= j < |g[i]| ==> InGamut(g[i][j])
  }

  /** A resized frame as numpy sees it: bands fit, and every channel is 8-bit. */
  predicate IsFrame(g: Grid) {
    HasBands(g) && AllInGamut(g)
  }

  /** A frame of the shape `img.resize((80, 45))` produces. */
  predicate IsResizedFrame(g: Grid) {
    IsFrame(g) && Height(g) == RESIZED_HEIGHT && Width(g) == RESIZED_WIDTH
  }

  // ----- The samples, as numpy gathers them -----

  /** `reshape(-1, 3)`: the rows laid end to end. */
  function Flatten(rows: seq<seq<Color>>): seq<Color> {
    if rows == [] then [] else Flatten(rows[..|rows| - 1]) + rows[|rows| - 1]
  }

  /** `img_array[:5, :]` */
  function TopBand(g: Grid): Grid
    requires HasBands(g)
  {
    g[..EDGE_THICKNESS]
  }

  /** `img_array[-5:, :]` */
  function BottomBand(g: Grid): Grid
    requires HasBands(g)
  {
    g[|g| - EDGE_THICKNESS..]
  }

  /** `img_array[:, :5]` */
  function LeftBand(g: Grid): Grid
    requires HasBands(g)
  {
    seq(|g|, i requires 0 <= i < |g| => g[i][..EDGE_THICKNESS])
  }

  /** `img_array[:, -5:]` */
  function RightBand(g: Grid): Grid
    requires HasBands(g)
  {
    seq(|g|, i requires 0 <= i < |g| => g[i][|g[i]| - EDGE_THICKNESS..])
  }

  /** `np.vstack` of the four bands, in the code's order: `SampleCount`
      samples whose channel sums are the rectangle sums `EdgeSum`. */
  function EdgeSamples(g: Grid): (s: seq<Color>)
    requires HasBands(g)
    ensures |s| == SampleCount(g)
    ensures SumChannel(s, Red) == EdgeSum(g, Red)
    ensures SumChannel(s, Green) == EdgeSum(g, Green)
    ensures SumChannel(s, Blue) == EdgeSum(g, Blue)
  {
    StackedSum(g, Red);
    StackedSum(g, Green);
    StackedSum(g, Blue);
    Flatten(TopBand(g)) + Flatten(BottomBand(g)) + Flatten(LeftBand(g)) + Flatten(RightBand(g))
  }

  function SumChannel(s: seq<Color>, k: Channel): int {
    if s == [] then 0 else SumChannel(s[..|s| - 1], k) + Get(s[|s| - 1], k)
  }

  /** `edges.mean(axis=0).astype(int)`. The channel sums are integers below
      2^53, so numpy's float64 sum is exact, and a quotient of such integers
      that is not whole lies at least 1/count away from the next integer, so
      truncating the float quotient gives the integer quotient. */
  function EdgeAverage(g: Grid): (avg: Color)
    requires IsFrame(g)
    ensures InGamut(avg)
    ensures avg.r == EdgeSum(g, Red) / SampleCount(g)
    ensures avg.g == EdgeSum(g, Green) / SampleCount(g)
    ensures avg.b == EdgeSum(g, Blue) / SampleCount(g)
  {
    var s := EdgeSamples(g);
    EdgeSumBounds(g, Red);
    EdgeSumBounds(g, Green);
    EdgeSumBounds(g, Blue);
    Color(SumChannel(s, Red) / |s|, SumChannel(s, Green) / |s|, SumChannel(s, Blue) / |s|)
  }

  // ----- The same sum, by rectangles -----

  /** Sum of channel `k` over columns c0..c1-1 of one row. */
  function RowSum(row: seq<Color>, c0: nat, c1: nat, k: Channel): int
    requires c0 <= c1 <= |row|
    decreases c1 - c0
  {
    if c1 == c0 then 0 else RowSum(row, c0, c1 - 1, k) + Get(row[c1 - 1], k)
  }

  /** Sum of channel `k` over rows r0..r1-1 and columns c0..c1-1. */
  function RectSum(g: Grid, r0: nat, r1: nat, c0: nat, c1: nat, k: Channel): int
    requires Rectangular(g) && r0 <= r1 <= |g| && c0 <= c1 <= Width(g)
    decreases r1 - r0
  {
    if r1 == r0 then 0 else RectSum(g, r0, r1 - 1, c0, c1, k) + RowSum(g[r1 - 1], c0, c1, k)
  }

  /** The number of samples: 5 full rows twice and 5 full columns twice. */
  function SampleCount(g: Grid): (n: nat)
    ensures HasBands(g) ==> n > 0
    ensures IsResizedFrame(g) ==> n == 1250
  {
    2 * EDGE_THICKNESS * Width(g) + 2 * EDGE_THICKNESS * Height(g)
  }

  /** The four bands as rectangles; where they overlap (the 5x5 corners) a
      pixel is added twice. */
  function EdgeSum(g: Grid, k: Channel): int
    requires HasBands(g)
  {
    var h, w := Height(g), Width(g);
    RectSum(g, 0, EDGE_THICKNESS, 0, w, k)
    + RectSum(g, h - EDGE_THICKNESS, h, 0, w, k)
    + RectSum(g, 0, h, 0, EDGE_THICKNESS, k)
    + RectSum(g, 0, h, w - EDGE_THICKNESS, w, k)
  }

  lemma {:induction false} SumChannelConcat(a: seq<Color>, b: seq<Color>, k: Channel)
    ensures SumChannel(a + b, k) == SumChannel(a, k) + SumChannel(b, k)
    decreases |b|
  {
    if b == [] {
      assert a + b == a;
    } else {
      assert (a + b)[..|a + b| - 1] == a + b[..|b| - 1];
      SumChannelConcat(a, b[..|b| - 1], k);
    }
  }

  lemma {:induction false} SliceSum(row: seq<Color>, c0: nat, c1: nat, k: Channel)
    requires c0 <= c1 <= |row|
    ensures SumChannel(row[c0..c1], k) == RowSum(row, c0, c1, k)
    decreases c1 - c0
  {
    if c1 > c0 {
      assert row[c0..c1][..c1 - c0 - 1] == row[c0..c1 - 1];
      SliceSum(row, c0, c1 - 1, k);
    }
  }

  lemma {:induction false} FlattenLength(rows: seq<seq<Color>>, len: nat)
    requires forall i :: 0 <= i < |rows| ==> |rows[i]| == len
    ensures |Flatten(rows)| == |rows| * len
  {
    if rows != [] {
      FlattenLength(rows[..|rows| - 1], len);
      assert |rows| * len == (|rows| - 1) * len + len;
    }
  }

  /** Flattening rows cut from the same columns of consecutive rows of `g`
      sums to the rectangle they cover. */
  lemma {:induction false} FlattenBandSum(rows: seq<seq<Color>>, g: Grid, r0: nat, c0: nat, c1: nat, k: Channel)
    requires Rectangular(g) && r0 + |rows| <= |g| && c0 <= c1 <= Width(g)
    requires forall i :: 0 <= i < |rows| ==> rows[i] == g[r0 + i][c0..c1]
    ensures SumChannel(Flatten(rows), k) == RectSum(g, r0, r0 + |rows|, c0, c1, k)
  {
    if rows != [] {
      var n := |rows|;
      FlattenBandSum(rows[..n - 1], g, r0, c0, c1, k);
      SumChannelConcat(Flatten(rows[..n - 1]), rows[n - 1], k);
      SliceSum(g[r0 + n - 1], c0, c1, k);
    }
  }

  lemma FullRows(g: Grid)
    requires Rectangular(g)
    ensures forall i :: 0 <= i < |g| ==> g[i][0..Width(g)] == g[i]
  {
    forall i | 0 <= i < |g| ensures g[i][0..Width(g)] == g[i] {
      assert |g[i]| == Width(g);
    }
  }

  lemma TopBandSum(g: Grid, k: Channel)
    requires HasBands(g)
    ensures |Flatten(TopBand(g))| == EDGE_THICKNESS * Width(g)
    ensures SumChannel(Flatten(TopBand(g)), k) == RectSum(g, 0, EDGE_THICKNESS, 0, Width(g), k)
  {
    FullRows(g);
    FlattenBandSum(TopBand(g), g, 0, 0, Width(g), k);
    FlattenLength(TopBand(g), Width(g));
  }

  lemma BottomBandSum(g: Grid, k: Channel)
    requires HasBands(g)
    ensures |Flatten(BottomBand(g))| == EDGE_THICKNESS * Width(g)
    ensures SumChannel(Flatten(BottomBand(g)), k) == RectSum(g, |g| - EDGE_THICKNESS, |g|, 0, Width(g), k)
  {
    FullRows(g);
    FlattenBandSum(BottomBand(g), g, |g| - EDGE_THICKNESS, 0, Width(g), k);
    FlattenLength(BottomBand(g), Width(g));
  }

  lemma LeftBandSum(g: Grid, k: Channel)
    requires HasBands(g)
    ensures |Flatten(LeftBand(g))| == |g| * EDGE_THICKNESS
    ensures SumChannel(Flatten(LeftBand(g)), k) == RectSum(g, 0, |g|, 0, EDGE_THICKNESS, k)
  {
    FlattenBandSum(LeftBand(g), g, 0, 0, EDGE_THICKNESS, k);
    FlattenLength(LeftBand(g), EDGE_THICKNESS);
  }

  lemma RightBandSum(g: Grid, k: Channel)
    requires HasBands(g)
    ensures |Flatten(RightBand(g))| == |g| * EDGE_THICKNESS
    ensures SumChannel(Flatten(RightBand(g)), k) == RectSum(g, 0, |g|, Width(g) - EDGE_THICKNESS, Width(g), k)
  {
    FlattenBandSum(RightBand(g), g, 0, Width(g) - EDGE_THICKNESS, Width(g), k);
    FlattenLength(RightBand(g), EDGE_THICKNESS);
  }

  /** The four flattened bands stacked number `SampleCount` and sum to `EdgeSum`. */
  lemma StackedSum(g: Grid, k: Channel)
    requires HasBands(g)
    ensures
      var s := Flatten(TopBand(g)) + Flatten(BottomBand(g)) + Flatten(LeftBand(g)) + Flatten(RightBand(g));
      |s| == SampleCount(g) && SumChannel(s, k) == EdgeSum(g, k)
  {
    var top, bottom, left, right := Flatten(TopBand(g)), Flatten(BottomBand(g)), Flatten(LeftBand(g)), Flatten(RightBand(g));
    TopBandSum(g, k);
    BottomBandSum(g, k);
    LeftBandSum(g, k);
    RightBandSum(g, k);
    SumChannelConcat(top, bottom, k);
    SumChannelConcat(top + bottom, left, k);
    SumChannelConcat(top + bottom + left, right, k);
  }

  // ----- Bounds -----

  lemma {:induction false} RowSumBounds(row: seq<Color>, c0: nat, c1: nat, k: Channel)
    requires c0 <= c1 <= |row|
    requires forall j :: c0 <= j < c1 ==> InGamut(row[j])
    ensures 0 <= RowSum(row, c0, c1, k) <= 255 * (c1 - c0)
    decreases c1 - c0
  {
    if c1 > c0 {
      RowSumBounds(row, c0, c1 - 1, k);
    }
  }

  lemma {:induction false} RectSumBounds(g: Grid, r0: nat, r1: nat, c0: nat, c1: nat, k: Channel)
    requires IsFrame(g) && r0 <= r1 <= |g| && c0 <= c1 <= Width(g)
    ensures 0 <= RectSum(g, r0, r1, c0, c1, k) <= 255 * (r1 - r0) * (c1 - c0)
    decreases r1 - r0
  {
    if r1 > r0 {
      RectSumBounds(g, r0, r1 - 1, c0, c1, k);
      RowSumBounds(g[r1 - 1], c0, c1, k);
      assert 255 * (r1 - r0) * (c1 - c0) == 255 * (r1 - 1 - r0) * (c1 - c0) + 255 * (c1 - c0);
    }
  }

  /** A rectangle of the given area sums to between 0 and 255 per pixel. */
  lemma BandBounds(g: Grid, r0: nat, r1: nat, c0: nat, c1: nat, k: Channel, area: int)
    requires IsFrame(g) && r0 <= r1 <= |g| && c0 <= c1 <= Width(g)
    requires area == (r1 - r0) * (c1 - c0)
    ensures 0 <= RectSum(g, r0, r1, c0, c1, k) <= 255 * area
  {
    RectSumBounds(g, r0, r1, c0, c1, k);
  }

  lemma EdgeSumBounds(g: Grid, k: Channel)
    requires IsFrame(g)
    ensures 0 <= EdgeSum(g, k) / SampleCount(g) <= 255
  {
    var h, w, t := Height(g), Width(g), EDGE_THICKNESS;
    BandBounds(g, 0, t, 0, w, k, t * w);
    BandBounds(g, h - t, h, 0, w, k, t * w);
    BandBounds(g, 0, h, 0, t, k, t * h);
    BandBounds(g, 0, h, w - t, w, k, t * h);
    QuotientBound(EdgeSum(g, k), SampleCount(g), 255);
  }

  lemma QuotientBound(x: int, n: int, m: int)
    requires n > 0 && 0 <= x <= m * n
    ensures 0 <= x / n <= m
  {
  }

  // ----- What the average depends on -----

  /** Every pixel of `g` has colour `c`. */
  predicate Uniform(g: Grid, c: Color) {
    forall i, j :: 0 <= i < |g| && 0 <= j < |g[i]| ==> g[i][j] == c
  }

  lemma {:induction false} RowSumUniform(row: seq<Color>, c0: nat, c1: nat, c: Color, k: Channel)
    requires c0 <= c1 <= |row|
    requires forall j :: c0 <= j < c1 ==> row[j] == c
    ensures RowSum(row, c0, c1, k) == (c1 - c0) * Get(c, k)
    decreases c1 - c0
  {
    if c1 > c0 {
      RowSumUniform(row, c0, c1 - 1, c, k);
    }
  }

  lemma {:induction false} RectSumUniform(g: Grid, r0: nat, r1: nat, c0: nat, c1: nat, c: Color, k: Channel)
    requires Rectangular(g) && Uniform(g, c) && r0 <= r1 <= |g| && c0 <= c1 <= Width(g)
    ensures RectSum(g, r0, r1, c0, c1, k) == (r1 - r0) * ((c1 - c0) * Get(c, k))
    decreases r1 - r0
  {
    if r1 > r0 {
      var m := (c1 - c0) * Get(c, k);
      RectSumUniform(g, r0, r1 - 1, c0, c1, c, k);
      RowSumUniform(g[r1 - 1], c0, c1, c, k);
      MulStep(r1 - 1 - r0, m);
    }
  }

  lemma MulStep(a: int, m: int)
    ensures (a + 1) * m == a * m + m
  {
  }

  lemma EdgeSumUniform(g: Grid, c: Color, k: Channel)
    requires HasBands(g) && Uniform(g, c)
    ensures EdgeSum(g, k) == SampleCount(g) * Get(c, k)
  {
    var h, w, t := Height(g), Width(g), EDGE_THICKNESS;
    var v := Get(c, k);
    RectSumUniform(g, 0, t, 0, w, c, k);
    RectSumUniform(g, h - t, h, 0, w, c, k);
    RectSumUniform(g, 0, h, 0, t, c, k);
    RectSumUniform(g, 0, h, w - t, w, c, k);
    BandArea(h, w, v);
  }

  lemma BandArea(h: int, w: int, v: int)
    ensures (2 * EDGE_THICKNESS * w + 2 * EDGE_THICKNESS * h) * v
         == EDGE_THICKNESS * (w * v) + EDGE_THICKNESS * (w * v) + h * (EDGE_THICKNESS * v) + h * (EDGE_THICKNESS * v)
  {
  }

  lemma DivCancel(n: int, v: int)
    requires n > 0
    ensures (n * v) / n == v
  {
    var q, r := (n * v) / n, (n * v) % n;
    assert n * (v - q) == r;
    MultipleBelow(n, v - q);
  }

  /** The only multiple of a positive n in 0..n-1 is zero. */
  lemma MultipleBelow(n: int, m: int)
    requires n > 0 && 0 <= n * m < n
    ensures m == 0
  {
  }

  /** A frame of a single colour averages to exactly that colour, whatever its size. */
  lemma UniformFrameAverage(g: Grid, c: Color)
    requires IsFrame(g) && Uniform(g, c)
    ensures EdgeAverage(g) == c
  {
    var n := SampleCount(g);
    EdgeSumUniform(g, c, Red);
    EdgeSumUniform(g, c, Green);
    EdgeSumUniform(g, c, Blue);
    DivCancel(n, c.r);
    DivCancel(n, c.g);
    DivCancel(n, c.b);
  }

  /** Pixel (i, j) of an h-by-w frame lies in at least one of the four bands. */
  predicate OnBorder(h: int, w: int, i: int, j: int) {
    i < EDGE_THICKNESS || i >= h - EDGE_THICKNESS || j < EDGE_THICKNESS || j >= w - EDGE_THICKNESS
  }

  /** Two frames of the same size that agree on every border pixel. */
  predicate SameBorder(g1: Grid, g2: Grid) {
    && Height(g1) == Height(g2) && Width(g1) == Width(g2) && Rectangular(g1) && Rectangular(g2)
    && forall i, j :: 0 <= i < |g1| && 0 <= j < Width(g1) && OnBorder(|g1|, Width(g1), i, j) ==> g1[i][j] == g2[i][j]
  }

  lemma {:induction false} RowSumAgree(row1: seq<Color>, row2: seq<Color>, c0: nat, c1: nat, k: Channel)
    requires c0 <= c1 <= |row1| && c1 <= |row2|
    requires forall j :: c0 <= j < c1 ==> row1[j] == row2[j]
    ensures RowSum(row1, c0, c1, k) == RowSum(row2, c0, c1, k)
    decreases c1 - c0
  {
    if c1 > c0 {
      RowSumAgree(row1, row2, c0, c1 - 1, k);
    }
  }

  lemma {:induction false} RectSumAgree(g1: Grid, g2: Grid, r0: nat, r1: nat, c0: nat, c1: nat, k: Channel)
    requires Rectangular(g1) && Rectangular(g2) && |g1| == |g2| && Width(g1) == Width(g2)
    requires r0 <= r1 <= |g1| && c0 <= c1 <= Width(g1)
    requires forall i, j :: r0 <= i < r1 && c0 <= j < c1 ==> g1[i][j] == g2[i][j]
    ensures RectSum(g1, r0, r1, c0, c1, k) == RectSum(g2, r0, r1, c0, c1, k)
    decreases r1 - r0
  {
    if r1 > r0 {
      RectSumAgree(g1, g2, r0, r1 - 1, c0, c1, k);
      RowSumAgree(g1[r1 - 1], g2[r1 - 1], c0, c1, k);
    }
  }

  lemma BorderRectAgree(g1: Grid, g2: Grid, r0: nat, r1: nat, c0: nat, c1: nat, k: Channel)
    requires SameBorder(g1, g2) && r0 <= r1 <= |g1| && c0 <= c1 <= Width(g1)
    requires forall i, j :: r0 <= i < r1 && c0 <= j < c1 ==> OnBorder(|g1|, Width(g1), i, j)
    ensures RectSum(g1, r0, r1, c0, c1, k) == RectSum(g2, r0, r1, c0, c1, k)
  {
    RectSumAgree(g1, g2, r0, r1, c0, c1, k);
  }

  lemma EdgeSumAgree(g1: Grid, g2: Grid, k: Channel)
    requires HasBands(g1) && HasBands(g2) && SameBorder(g1, g2)
    ensures EdgeSum(g1, k) == EdgeSum(g2, k)
  {
    var h, w, t := Height(g1), Width(g1), EDGE_THICKNESS;
    BorderRectAgree(g1, g2, 0, t, 0, w, k);
    BorderRectAgree(g1, g2, h - t, h, 0, w, k);
    BorderRectAgree(g1, g2, 0, h, 0, t, k);
    BorderRectAgree(g1, g2, 0, h, w - t, w, k);
  }

  /** Pixels strictly inside the five-pixel border never affect the average. */
  lemma InteriorIrrelevant(g1: Grid, g2: Grid)
    requires IsFrame(g1) && IsFrame(g2) && SameBorder(g1, g2)
    ensures EdgeAverage(g1) == EdgeAverage(g2)
  {
    EdgeSumAgree(g1, g2, Red);
    EdgeSumAgree(g1, g2, Green);
    EdgeSumAgree(g1, g2, Blue);
  }

  /** How many of the four bands pixel (i, j) of an h-by-w frame belongs to,
      i.e. how many times numpy samples it. */
  function Weight(h: int, w: int, i: int, j: int): (n: nat)
    ensures n == 0 <==> !OnBorder(h, w, i, j)
    ensures h >= 2 * EDGE_THICKNESS && w >= 2 * EDGE_THICKNESS ==>
      (n == 2 <==> (i < EDGE_THICKNESS || i >= h - EDGE_THICKNESS) && (j < EDGE_THICKNESS || j >= w - EDGE_THICKNESS))
    ensures h >= 2 * EDGE_THICKNESS && w >= 2 * EDGE_THICKNESS ==> n <= 2
  {
    (if i < EDGE_THICKNESS then 1 else 0) + (if i >= h - EDGE_THICKNESS then 1 else 0)
    + (if j < EDGE_THICKNESS then 1 else 0) + (if j >= w - EDGE_THICKNESS then 1 else 0)
  }

  function SetPixel(g: Grid, i: nat, j: nat, p: Color): Grid
    requires i < |g| && j < |g[i]|
  {
    g[i := g[i][j := p]]
  }

  lemma {:induction false} RowSumSet(row: seq<Color>, j: nat, p: Color, c0: nat, c1: nat, k: Channel)
    requires j < |row| && c0 <= c1 <= |row|
    ensures RowSum(row[j := p], c0, c1, k)
         == RowSum(row, c0, c1, k) + (if c0 <= j < c1 then Get(p, k) - Get(row[j], k) else 0)
    decreases c1 - c0
  {
    if c1 > c0 {
      RowSumSet(row, j, p, c0, c1 - 1, k);
    }
  }

  lemma {:induction false} RectSumSet(g: Grid, i: nat, j: nat, p: Color, r0: nat, r1: nat, c0: nat, c1: nat, k: Channel)
    requires Rectangular(g) && i < |g| && j < Width(g)
    requires r0 <= r1 <= |g| && c0 <= c1 <= Width(g)
    ensures Rectangular(SetPixel(g, i, j, p)) && Width(SetPixel(g, i, j, p)) == Width(g)
    ensures RectSum(SetPixel(g, i, j, p), r0, r1, c0, c1, k)
         == RectSum(g, r0, r1, c0, c1, k) + (if r0 <= i < r1 && c0 <= j < c1 then Get(p, k) - Get(g[i][j], k) else 0)
    decreases r1 - r0
  {
    var g' := SetPixel(g, i, j, p);
    assert Width(g') == Width(g) by {
      assert |g'[0]| == |g[0]|;
    }
    if r1 > r0 {
      RectSumSet(g, i, j, p, r0, r1 - 1, c0, c1, k);
      if r1 - 1 == i {
        RowSumSet(g[i], j, p, c0, c1, k);
      }
    }
  }

  lemma SetPixelFrame(g: Grid, i: nat, j: nat, p: Color)
    requires IsFrame(g) && InGamut(p) && i < Height(g) && j < Width(g)
    ensures IsFrame(SetPixel(g, i, j, p))
    ensures Height(SetPixel(g, i, j, p)) == Height(g) && Width(SetPixel(g, i, j, p)) == Width(g)
  {
    var g' := SetPixel(g, i, j, p);
    assert |g'[0]| == |g[0]|;
    forall a, b | 0 <= a < |g'| && 0 <= b < |g'[a]| ensures InGamut(g'[a][b]) {
      if a == i && b == j {
        assert g'[a][b] == p;
      } else {
        assert g'[a][b] == g[a][b];
      }
    }
  }

  lemma WeightTimes(h: int, w: int, i: int, j: int, d: int)
    ensures Weight(h, w, i, j) * d
         == (if i < EDGE_THICKNESS then d else 0) + (if i >= h - EDGE_THICKNESS then d else 0)
          + (if j < EDGE_THICKNESS then d else 0) + (if j >= w - EDGE_THICKNESS then d else 0)
  {
  }

  lemma SetPixelShape(g: Grid, i: nat, j: nat, p: Color)
    requires HasBands(g) && i < Height(g) && j < Width(g)
    ensures HasBands(SetPixel(g, i, j, p))
    ensures Height(SetPixel(g, i, j, p)) == Height(g) && Width(SetPixel(g, i, j, p)) == Width(g)
  {
    RectSumSet(g, i, j, p, 0, 0, 0, 0, Red);
  }

  /** The top and bottom bands see pixel (i, j) once for each of them it lies in. */
  lemma RowBandsSet(g: Grid, i: nat, j: nat, p: Color, k: Channel)
    requires HasBands(g) && i < Height(g) && j < Width(g)
    ensures
      var h, w, d := Height(g), Width(g), Get(p, k) - Get(g[i][j], k);
      RectSum(SetPixel(g, i, j, p), 0, EDGE_THICKNESS, 0, w, k)
        + RectSum(SetPixel(g, i, j, p), h - EDGE_THICKNESS, h, 0, w, k)
      == RectSum(g, 0, EDGE_THICKNESS, 0, w, k) + RectSum(g, h - EDGE_THICKNESS, h, 0, w, k)
        + (if i < EDGE_THICKNESS then d else 0) + (if i >= h - EDGE_THICKNESS then d else 0)
  {
    var h, w, t := Height(g), Width(g), EDGE_THICKNESS;
    RectSumSet(g, i, j, p, 0, t, 0, w, k);
    RectSumSet(g, i, j, p, h - t, h, 0, w, k);
  }

  /** The left and right bands see pixel (i, j) once for each of them it lies in. */
  lemma ColumnBandsSet(g: Grid, i: nat, j: nat, p: Color, k: Channel)
    requires HasBands(g) && i < Height(g) && j < Width(g)
    ensures
      var h, w, d := Height(g), Width(g), Get(p, k) - Get(g[i][j], k);
      RectSum(SetPixel(g, i, j, p), 0, h, 0, EDGE_THICKNESS, k)
        + RectSum(SetPixel(g, i, j, p), 0, h, w - EDGE_THICKNESS, w, k)
      == RectSum(g, 0, h, 0, EDGE_THICKNESS, k) + RectSum(g, 0, h, w - EDGE_THICKNESS, w, k)
        + (if j < EDGE_THICKNESS then d else 0) + (if j >= w - EDGE_THICKNESS then d else 0)
  {
    var h, w, t := Height(g), Width(g), EDGE_THICKNESS;
    RectSumSet(g, i, j, p, 0, h, 0, t, k);
    RectSumSet(g, i, j, p, 0, h, w - t, w, k);
  }

  lemma EdgeSumSet(g: Grid, i: nat, j: nat, p: Color, k: Channel)
    requires HasBands(g) && i < Height(g) && j < Width(g)
    ensures HasBands(SetPixel(g, i, j, p))
    ensures
      var h, w, d := Height(g), Width(g), Get(p, k) - Get(g[i][j], k);
      EdgeSum(SetPixel(g, i, j, p), k)
      == EdgeSum(g, k)
       + (if i < EDGE_THICKNESS then d else 0) + (if i >= h - EDGE_THICKNESS then d else 0)
       + (if j < EDGE_THICKNESS then d else 0) + (if j >= w - EDGE_THICKNESS then d else 0)
  {
    SetPixelShape(g, i, j, p);
    RowBandsSet(g, i, j, p, k);
    ColumnBandsSet(g, i, j, p, k);
  }

  /** Changing one pixel's channel by d changes the band sum by Weight * d:
      the sum is the weighted sum of all pixels, with weight 2 on the corner
      squares, 1 on the rest of the border and 0 inside. */
  lemma PixelContribution(g: Grid, i: nat, j: nat, p: Color, k: Channel)
    requires IsFrame(g) && InGamut(p) && i < Height(g) && j < Width(g)
    ensures IsFrame(SetPixel(g, i, j, p))
    ensures EdgeSum(SetPixel(g, i, j, p), k)
         == EdgeSum(g, k) + Weight(Height(g), Width(g), i, j) * (Get(p, k) - Get(g[i][j], k))
  {
    SetPixelFrame(g, i, j, p);
    EdgeSumSet(g, i, j, p, k);
    WeightTimes(Height(g), Width(g), i, j, Get(p, k) - Get(g[i][j], k));
  }
}
