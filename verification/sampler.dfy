/**
 * The adaptive grid sampler: a grid of samples over a tile and its filter
 * margins, handed out one at a time. Each pixel-division cell is a rectangle on
 * a stack; its four corners are sampled, and it is then either split into four
 * quadrants (when the corner values differ by more than a threshold) or filled
 * in by bilinear interpolation, with a per-sample flag recording which samples
 * have been handed out or interpolated.
 */
module GridSampler {

  import opened Optional

  // ---------------------------------------------------------------------------
  // Values
  // ---------------------------------------------------------------------------

  datatype Int2 = Int2(x: int, y: int)

  /** A rectangle of the sample grid with corners min and max; its size is max - min. */
  datatype Rect = Rect(min: Int2, max: Int2)

  /** The colour a renderer stores in a sample, four channels. */
  datatype Vec4 = Vec4(r: real, g: real, b: real, a: real)

  /** A sample; only its colour is part of this model. */
  datatype Sample = Sample(data: Vec4)

  const ZERO: Vec4 := Vec4(0.0, 0.0, 0.0, 0.0)

  function Size(r: Rect): Int2
  {
    Int2(r.max.x - r.min.x, r.max.y - r.min.y)
  }

  /** Channel c of a colour. */
  function Ch(v: Vec4, c: int): real
  {
    if c == 0 then v.r else if c == 1 then v.g else if c == 2 then v.b else v.a
  }

  function Min(a: real, b: real): real { if a <= b then a else b }
  function Max(a: real, b: real): real { if a >= b then a else b }

  /** The channel-wise minimum of two colours. */
  function VMin(u: Vec4, v: Vec4): (w: Vec4)
    ensures forall c :: 0 <= c < 4 ==> Ch(w, c) == Min(Ch(u, c), Ch(v, c))
  {
    Vec4(Min(u.r, v.r), Min(u.g, v.g), Min(u.b, v.b), Min(u.a, v.a))
  }

  /** The channel-wise maximum of two colours. */
  function VMax(u: Vec4, v: Vec4): (w: Vec4)
    ensures forall c :: 0 <= c < 4 ==> Ch(w, c) == Max(Ch(u, c), Ch(v, c))
  {
    Vec4(Max(u.r, v.r), Max(u.g, v.g), Max(u.b, v.b), Max(u.a, v.a))
  }

  function Mix(a: real, b: real, t: real): real
  {
    (1.0 - t) * a + t * b
  }

  /** Linear interpolation between two colours, channel by channel. */
  function Lerp(u: Vec4, v: Vec4, t: real): Vec4
  {
    Vec4(Mix(u.r, v.r, t), Mix(u.g, v.g, t), Mix(u.b, v.b, t), Mix(u.a, v.a, t))
  }

  /** Interpolating at 0 gives the first colour and at 1 the second. */
  lemma LerpEnds(u: Vec4, v: Vec4)
    ensures Lerp(u, v, 0.0) == u && Lerp(u, v, 1.0) == v
  {
  }

  // ---------------------------------------------------------------------------
  // Integer arithmetic
  // ---------------------------------------------------------------------------

  lemma MulLe(a: int, b: int, n: int)
    requires a <= b && 0 <= n
    ensures a * n <= b * n
  {
    var d := b - a;
    assert b * n == a * n + d * n;
    assert d * n >= 0;
  }

  /** Row-major positions: index y*nx + x holds column x of row y. */
  lemma DivMod(i: int, nx: int, y: int, x: int)
    requires 0 <= x < nx && i == y * nx + x
    ensures i / nx == y && i % nx == x
  {
    var q := i / nx;
    var r := i % nx;
    assert i == q * nx + r;
    if q > y {
      MulLe(y + 1, q, nx);
      assert false;
    }
    if q < y {
      MulLe(q + 1, y, nx);
      assert false;
    }
  }

  /** The row-major offset of column x of row y in an nx-wide grid. */
  function Offset(x: int, y: int, nx: int): int
  {
    y * nx + x
  }

  /** A point inside an nx by ny grid has its row-major offset inside the grid's nx*ny entries. */
  lemma OffsetInRange(x: int, y: int, nx: int, ny: int)
    requires 0 <= x < nx && 0 <= y < ny
    ensures 0 <= y * nx + x < nx * ny
  {
    MulLe(0, y, nx);
    MulLe(y + 1, ny, nx);
    assert (y + 1) * nx == y * nx + nx;
  }

  // ---------------------------------------------------------------------------
  // Sample counts
  // ---------------------------------------------------------------------------

  function Pow2(n: nat): (p: int)
    ensures p >= 1
  {
    if n == 0 then 1 else 2 * Pow2(n - 1)
  }

  /** compute_num_pixel_division: 2^maxSubdivision divisions of a pixel on each axis. */
  function PixelDivision(maxSubdivision: nat): (d: Int2)
    ensures d.x == d.y >= 1
    ensures maxSubdivision > 0 ==> d.x % 2 == 0 && d.x / 2 == PixelDivision(maxSubdivision - 1).x
  {
    Int2(Pow2(maxSubdivision), Pow2(maxSubdivision))
  }

  /** count_samples_in_pixel: ndiv * (1 + 2 * margin) + 1 samples per axis. */
  function PixelSamples(ndiv: Int2, margin: Int2): Int2
  {
    Int2(ndiv.x * (1 + 2 * margin.x) + 1, ndiv.y * (1 + 2 * margin.y) + 1)
  }

  /** count_samples_in_region: ndiv * (size + 2 * margin) + 1 samples per axis. */
  function RegionSamples(ndiv: Int2, size: Int2, margin: Int2): Int2
  {
    Int2(ndiv.x * (size.x + 2 * margin.x) + 1, ndiv.y * (size.y + 2 * margin.y) + 1)
  }

  /**
   * The counts agree: a one-pixel region has a pixel's samples, and a region's
   * tile (size plus both margins) times the division is one less than its sample
   * count, so each tile cell's rectangle stays inside the grid.
   */
  lemma SampleCounts(ndiv: Int2, size: Int2, margin: Int2)
    ensures RegionSamples(ndiv, Int2(1, 1), margin) == PixelSamples(ndiv, margin)
    ensures (size.x + 2 * margin.x) * ndiv.x == RegionSamples(ndiv, size, margin).x - 1
    ensures (size.y + 2 * margin.y) * ndiv.y == RegionSamples(ndiv, size, margin).y - 1
  {
  }

  /** A region of non-negative size with non-negative margins has at least one sample per axis. */
  lemma RegionSamplesPositive(ndiv: Int2, size: Int2, margin: Int2)
    requires ndiv.x >= 1 && ndiv.y >= 1
    requires size.x + 2 * margin.x >= 0 && size.y + 2 * margin.y >= 0
    ensures RegionSamples(ndiv, size, margin).x >= 1 && RegionSamples(ndiv, size, margin).y >= 1
  {
    MulLe(0, size.x + 2 * margin.x, ndiv.x);
    MulLe(0, size.y + 2 * margin.y, ndiv.y);
  }

  /**
   * The samples of any pixel of a region, margins included, lie inside the
   * region's grid: the pixel's block starts div samples per pixel further on and
   * spans the pixel's sample count.
   */
  lemma PixelBlockFits(ndiv: Int2, margin: Int2, region: Rect, p: Int2)
    requires ndiv.x >= 1 && ndiv.y >= 1 && margin.x >= 0 && margin.y >= 0
    requires region.min.x <= p.x < region.max.x && region.min.y <= p.y < region.max.y
    ensures (p.x - region.min.x) * ndiv.x + PixelSamples(ndiv, margin).x <= RegionSamples(ndiv, Size(region), margin).x
    ensures (p.y - region.min.y) * ndiv.y + PixelSamples(ndiv, margin).y <= RegionSamples(ndiv, Size(region), margin).y
  {
    MulLe(p.x - region.min.x + 1, Size(region).x, ndiv.x);
    MulLe(p.y - region.min.y + 1, Size(region).y, ndiv.y);
    assert (p.x - region.min.x) * ndiv.x + ndiv.x * (1 + 2 * margin.x) == ndiv.x * (p.x - region.min.x + 1 + 2 * margin.x);
    assert (p.y - region.min.y) * ndiv.y + ndiv.y * (1 + 2 * margin.y) == ndiv.y * (p.y - region.min.y + 1 + 2 * margin.y);
    assert ndiv.x * (Size(region).x + 2 * margin.x) == ndiv.x * Size(region).x + ndiv.x * (2 * margin.x);
    assert ndiv.y * (Size(region).y + 2 * margin.y) == ndiv.y * Size(region).y + ndiv.y * (2 * margin.y);
  }

  /** Pixel p's block of npx samples, ndiv samples per pixel on from the first pixel `start`, lies in an n-sample grid. */
  predicate BlockInGrid(p: Int2, start: Int2, ndiv: Int2, npx: Int2, n: Int2)
  {
    && start.x <= p.x && start.y <= p.y
    && (p.x - start.x) * ndiv.x + npx.x <= n.x
    && (p.y - start.y) * ndiv.y + npx.y <= n.y
  }

  /** A pixel has at least one sample per axis, and every pixel of a region has its block inside the region's grid. */
  lemma RegionPixelsFit(ndiv: Int2, margin: Int2, region: Rect)
    requires ndiv.x >= 1 && ndiv.y >= 1 && margin.x >= 0 && margin.y >= 0
    requires region.min.x <= region.max.x && region.min.y <= region.max.y
    ensures PixelSamples(ndiv, margin).x >= 1 && PixelSamples(ndiv, margin).y >= 1
    ensures forall p: Int2 :: region.min.x <= p.x < region.max.x && region.min.y <= p.y < region.max.y ==>
      BlockInGrid(p, region.min, ndiv, PixelSamples(ndiv, margin), RegionSamples(ndiv, Size(region), margin))
  {
    RegionSamplesPositive(ndiv, Int2(1, 1), margin);
    SampleCounts(ndiv, Size(region), margin);
    forall p: Int2 | region.min.x <= p.x < region.max.x && region.min.y <= p.y < region.max.y
      ensures BlockInGrid(p, region.min, ndiv, PixelSamples(ndiv, margin), RegionSamples(ndiv, Size(region), margin))
    {
      PixelBlockFits(ndiv, margin, region, p);
    }
  }

  // ---------------------------------------------------------------------------
  // Corners and quadrants
  // ---------------------------------------------------------------------------

  /** get_corner_points: top-left, top-right, bottom-left, bottom-right. */
  function Corner(r: Rect, k: int): Int2
  {
    if k == 0 then Int2(r.min.x, r.min.y)
    else if k == 1 then Int2(r.max.x, r.min.y)
    else if k == 2 then Int2(r.min.x, r.max.y)
    else Int2(r.max.x, r.max.y)
  }

  /** A rectangle of at least one cell, with every corner inside an n.x by n.y grid. */
  predicate InGrid(r: Rect, n: Int2)
  {
    0 <= r.min.x < r.max.x < n.x && 0 <= r.min.y < r.max.y < n.y
  }

  /** The corners are the four combinations of the rectangle's x and y bounds, in the grid when it is. */
  lemma CornersInGrid(r: Rect, n: Int2, k: int)
    requires InGrid(r, n) && 0 <= k < 4
    ensures Corner(r, k).x == (if k % 2 == 0 then r.min.x else r.max.x)
    ensures Corner(r, k).y == (if k < 2 then r.min.y else r.max.y)
    ensures 0 <= Corner(r, k).x < n.x && 0 <= Corner(r, k).y < n.y
  {
  }

  /** C++ integer division by 2, which truncates toward zero. */
  function Div2(a: int): int
  {
    if a >= 0 then a / 2 else -((-a) / 2)
  }

  /** Halving a doubled value gives it back, whatever its sign. */
  lemma Div2Twice(a: int)
    ensures Div2(a + a) == a
  {
  }

  /** The point halfway between two points, as Int2's division by 2 computes it. */
  function MidPoint(a: Int2, b: Int2): Int2
  {
    Int2(Div2(a.x + b.x), Div2(a.y + b.y))
  }

  /** subdivide_rect's quadrants, in the order pushed: the last one is visited first. */
  function Quadrants(r: Rect): (q: seq<Rect>)
    ensures |q| == 4
  {
    var mid := MidPoint(r.min, r.max);
    [Rect(r.min, mid),
     Rect(Int2(mid.x, r.min.y), Int2(r.max.x, mid.y)),
     Rect(Int2(r.min.x, mid.y), Int2(mid.x, r.max.y)),
     Rect(mid, r.max)]
  }

  predicate Covers(r: Rect, p: Int2)
  {
    r.min.x <= p.x <= r.max.x && r.min.y <= p.y <= r.max.y
  }

  /**
   * For a rectangle in the grid with both sides at least 2, the quadrants lie in
   * the grid and inside the rectangle, each side is half of the rectangle's
   * (rounded down for the first half, up for the second), and together they cover
   * every point of the rectangle.
   */
  lemma QuadrantsSplit(r: Rect, n: Int2)
    requires InGrid(r, n) && Size(r).x >= 2 && Size(r).y >= 2
    ensures forall k :: 0 <= k < 4 ==> InGrid(Quadrants(r)[k], n)
    ensures forall k :: 0 <= k < 4 ==> Size(Quadrants(r)[k]).x <= Size(r).x - 1 && Size(Quadrants(r)[k]).y <= Size(r).y - 1
    ensures Size(Quadrants(r)[0]) == Int2(Size(r).x / 2, Size(r).y / 2)
    ensures Size(Quadrants(r)[3]) == Int2(Size(r).x - Size(r).x / 2, Size(r).y - Size(r).y / 2)
    ensures forall k, p :: 0 <= k < 4 && Covers(Quadrants(r)[k], p) ==> Covers(r, p)
    ensures forall p :: Covers(r, p) ==> exists k :: 0 <= k < 4 && Covers(Quadrants(r)[k], p)
  {
    var mx := (r.min.x + r.max.x) / 2;
    var my := (r.min.y + r.max.y) / 2;
    assert mx - r.min.x == Size(r).x / 2;
    assert my - r.min.y == Size(r).y / 2;
    forall p | Covers(r, p)
      ensures exists k :: 0 <= k < 4 && Covers(Quadrants(r)[k], p)
    {
      var k := (if p.x <= mx then 0 else 1) + (if p.y <= my then 0 else 2);
      assert Covers(Quadrants(r)[k], p);
    }
  }

  /**
   * Subdivision halves a square whose side is a power of two: a pixel's cell
   * starts 2^maxSubdivision samples wide, each quadrant of a 2^k square is a
   * 2^(k-1) square, and only a side of 1 (k = 0) is below compare_corners' limit
   * of 2, so a cell is split at most maxSubdivision levels deep.
   */
  lemma QuadrantsHalve(r: Rect, n: Int2, k: nat)
    requires InGrid(r, n) && Size(r) == Int2(Pow2(k), Pow2(k))
    ensures (Size(r).x < 2 || Size(r).y < 2) <==> k == 0
    ensures k > 0 ==> forall j :: 0 <= j < 4 ==> Size(Quadrants(r)[j]) == Int2(Pow2(k - 1), Pow2(k - 1))
  {
    if k > 0 {
      assert Pow2(k) == 2 * Pow2(k - 1);
      QuadrantsSplit(r, n);
      var mid := MidPoint(r.min, r.max);
      assert mid.x - r.min.x == Pow2(k - 1) && r.max.x - mid.x == Pow2(k - 1);
      assert mid.y - r.min.y == Pow2(k - 1) && r.max.y - mid.y == Pow2(k - 1);
    }
  }

  // ---------------------------------------------------------------------------
  // Termination measure
  // ---------------------------------------------------------------------------

  /** A bound on the rectangles a w by h rectangle can be split into, itself included. */
  function Tree(w: int, h: int): (t: nat)
    ensures t >= 1
    decreases w
  {
    if w < 2 || h < 2 then 1 else 1 + 4 * Tree(w - 1, h - 1)
  }

  lemma {:induction false} TreeMono(a: int, b: int, c: int, d: int)
    requires a <= c && b <= d
    ensures Tree(a, b) <= Tree(c, d)
    decreases c
  {
    if a >= 2 && b >= 2 {
      TreeMono(a - 1, b - 1, c - 1, d - 1);
    }
  }

  /** The steps a stacked rectangle can still cost: a visit per corner and a pop, for it and all its parts. */
  function Weight(r: Rect): nat
  {
    5 * Tree(Size(r).x, Size(r).y)
  }

  function Potential(stack: seq<Rect>): nat
  {
    if stack == [] then 0 else Potential(stack[..|stack| - 1]) + Weight(stack[|stack| - 1])
  }

  lemma PotentialPush(stack: seq<Rect>, r: Rect)
    ensures Potential(stack + [r]) == Potential(stack) + Weight(r)
  {
    assert (stack + [r])[..|stack|] == stack;
  }

  /** Replacing a rectangle by its four quadrants lowers the measure by at least 5. */
  lemma QuadrantsWeigh(r: Rect, n: Int2)
    requires InGrid(r, n) && Size(r).x >= 2 && Size(r).y >= 2
    ensures Weight(Quadrants(r)[0]) + Weight(Quadrants(r)[1]) + Weight(Quadrants(r)[2]) + Weight(Quadrants(r)[3])
            <= Weight(r) - 5
  {
    QuadrantsSplit(r, n);
    var q := Quadrants(r);
    var w := Size(r).x;
    var h := Size(r).y;
    TreeMono(Size(q[0]).x, Size(q[0]).y, w - 1, h - 1);
    TreeMono(Size(q[1]).x, Size(q[1]).y, w - 1, h - 1);
    TreeMono(Size(q[2]).x, Size(q[2]).y, w - 1, h - 1);
    TreeMono(Size(q[3]).x, Size(q[3]).y, w - 1, h - 1);
  }

  /** Pushing a rectangle's quadrants adds their weights to the measure. */
  lemma PotentialQuadrants(stack: seq<Rect>, r: Rect)
    ensures Potential(stack + Quadrants(r))
            == Potential(stack) + Weight(Quadrants(r)[0]) + Weight(Quadrants(r)[1]) + Weight(Quadrants(r)[2]) + Weight(Quadrants(r)[3])
  {
    var q := Quadrants(r);
    PotentialPush(stack, q[0]);
    PotentialPush(stack + [q[0]], q[1]);
    PotentialPush(stack + [q[0], q[1]], q[2]);
    PotentialPush(stack + [q[0], q[1], q[2]], q[3]);
    assert stack + [q[0]] + [q[1]] == stack + [q[0], q[1]];
    assert stack + [q[0], q[1]] + [q[2]] == stack + [q[0], q[1], q[2]];
    assert stack + [q[0], q[1], q[2]] + [q[3]] == stack + q;
  }

  // ---------------------------------------------------------------------------
  // Corner comparison
  // ---------------------------------------------------------------------------

  /** The channel-wise minimum and maximum of the first i colours. */
  function MinOf(ds: seq<Vec4>, i: nat): Vec4
    requires 1 <= i <= |ds|
  {
    if i == 1 then ds[0] else VMin(MinOf(ds, i - 1), ds[i - 1])
  }

  function MaxOf(ds: seq<Vec4>, i: nat): Vec4
    requires 1 <= i <= |ds|
  {
    if i == 1 then ds[0] else VMax(MaxOf(ds, i - 1), ds[i - 1])
  }

  /** The minimum is at most every colour's channel and equal to one of them; likewise the maximum. */
  lemma {:induction false} MinMaxOf(ds: seq<Vec4>, i: nat, c: int)
    requires 1 <= i <= |ds| && 0 <= c < 4
    ensures forall j :: 0 <= j < i ==> Ch(MinOf(ds, i), c) <= Ch(ds[j], c) <= Ch(MaxOf(ds, i), c)
    ensures exists j :: 0 <= j < i && Ch(MinOf(ds, i), c) == Ch(ds[j], c)
    ensures exists j :: 0 <= j < i && Ch(MaxOf(ds, i), c) == Ch(ds[j], c)
  {
    if i > 1 {
      MinMaxOf(ds, i - 1, c);
      if Ch(ds[i - 1], c) < Ch(MinOf(ds, i - 1), c) {
        assert Ch(MinOf(ds, i), c) == Ch(ds[i - 1], c);
      } else {
        var j :| 0 <= j < i - 1 && Ch(MinOf(ds, i - 1), c) == Ch(ds[j], c);
        assert Ch(MinOf(ds, i), c) == Ch(ds[j], c);
      }
      if Ch(ds[i - 1], c) > Ch(MaxOf(ds, i - 1), c) {
        assert Ch(MaxOf(ds, i), c) == Ch(ds[i - 1], c);
      } else {
        var j :| 0 <= j < i - 1 && Ch(MaxOf(ds, i - 1), c) == Ch(ds[j], c);
        assert Ch(MaxOf(ds, i), c) == Ch(ds[j], c);
      }
    } else {
      assert Ch(MinOf(ds, i), c) == Ch(ds[0], c) == Ch(MaxOf(ds, i), c);
    }
  }

  /**
   * compare_corners' verdict, stated without minima and maxima: a rectangle with
   * both sides at least 2 needs subdividing when, in some channel, some corner
   * exceeds another by more than the threshold.
   */
  predicate Differ(ds: seq<Vec4>, threshold: real)
  {
    exists c, i, j :: 0 <= c < 4 && 0 <= i < |ds| && 0 <= j < |ds| && Ch(ds[i], c) - Ch(ds[j], c) > threshold
  }

  /** A channel's spread (maximum minus minimum) exceeds the threshold exactly when two of the colours differ by more. */
  lemma SpreadDiffers(ds: seq<Vec4>, threshold: real)
    requires |ds| == 4
    ensures (exists c :: 0 <= c < 4 && Ch(MaxOf(ds, 4), c) - Ch(MinOf(ds, 4), c) > threshold) <==> Differ(ds, threshold)
  {
    if exists c :: 0 <= c < 4 && Ch(MaxOf(ds, 4), c) - Ch(MinOf(ds, 4), c) > threshold {
      var c :| 0 <= c < 4 && Ch(MaxOf(ds, 4), c) - Ch(MinOf(ds, 4), c) > threshold;
      MinMaxOf(ds, 4, c);
      var i :| 0 <= i < 4 && Ch(MaxOf(ds, 4), c) == Ch(ds[i], c);
      var j :| 0 <= j < 4 && Ch(MinOf(ds, 4), c) == Ch(ds[j], c);
      assert Ch(ds[i], c) - Ch(ds[j], c) > threshold;
    }
    if Differ(ds, threshold) {
      var c, i, j :| 0 <= c < 4 && 0 <= i < 4 && 0 <= j < 4 && Ch(ds[i], c) - Ch(ds[j], c) > threshold;
      MinMaxOf(ds, 4, c);
      assert Ch(MaxOf(ds, 4), c) - Ch(MinOf(ds, 4), c) > threshold;
    }
  }

  // ---------------------------------------------------------------------------
  // Interpolation, specified index by index
  // ---------------------------------------------------------------------------

  /** Index i of an nx-wide grid lies in the closed rectangle r. */
  predicate InRectIndex(i: int, r: Rect, nx: int)
    requires nx > 0
  {
    r.min.y <= i / nx <= r.max.y && r.min.x <= i % nx <= r.max.x
  }

  /** Index i has been reached by interpolate_rect's row-major sweep of r up to (excluding) index k. */
  predicate Swept(i: int, r: Rect, nx: int, k: int)
    requires nx > 0
  {
    i < k && InRectIndex(i, r, nx)
  }

  /** The flags after the sweep up to k: each swept point still at -1 becomes 0, the rest stay. */
  function FlagsSwept(f: seq<int>, r: Rect, nx: int, k: int): (g: seq<int>)
    requires nx > 0
    ensures |g| == |f|
  {
    seq(|f|, i requires 0 <= i < |f| => if Swept(i, r, nx, k) && f[i] < 0 then 0 else f[i])
  }

  /** The bilinear value interpolate_rect gives index i of r, from the four corner colours. */
  function InterpAt(i: int, r: Rect, nx: int, d0: Vec4, d1: Vec4, d2: Vec4, d3: Vec4): Vec4
    requires nx > 0 && r.min.x < r.max.x && r.min.y < r.max.y
  {
    var ty := (i / nx - r.min.y) as real / (r.max.y - r.min.y) as real;
    var tx := (i % nx - r.min.x) as real / (r.max.x - r.min.x) as real;
    Lerp(Lerp(d0, d2, ty), Lerp(d1, d3, ty), tx)
  }

  /** The samples after the sweep up to k: each swept point gets its interpolated colour. */
  function DataSwept(s: seq<Sample>, r: Rect, nx: int, d0: Vec4, d1: Vec4, d2: Vec4, d3: Vec4, k: int): (t: seq<Sample>)
    requires nx > 0 && r.min.x < r.max.x && r.min.y < r.max.y
    ensures |t| == |s|
  {
    seq(|s|, i requires 0 <= i < |s| =>
      if Swept(i, r, nx, k) then Sample(InterpAt(i, r, nx, d0, d1, d2, d3)) else s[i])
  }

  /** Between the end of row y of r and the start of row y + 1 no index lies in r. */
  lemma RowGap(r: Rect, nx: int, y: int, i: int)
    requires 0 <= r.min.x <= r.max.x < nx && 0 <= y
    requires y * nx + r.max.x + 1 <= i < (y + 1) * nx + r.min.x
    ensures !InRectIndex(i, r, nx)
  {
    if i < (y + 1) * nx {
      DivMod(i, nx, y, i - y * nx);
    } else {
      DivMod(i, nx, y + 1, i - (y + 1) * nx);
    }
  }

  /** Every index of r comes before the first column of the row after its last. */
  lemma RectBefore(r: Rect, nx: int, i: int)
    requires 0 <= r.min.x <= r.max.x < nx && 0 <= r.min.y && 0 <= i
    requires InRectIndex(i, r, nx)
    ensures i < (r.max.y + 1) * nx + r.min.x
  {
    var y := i / nx;
    assert i == y * nx + i % nx;
    MulLe(y, r.max.y, nx);
  }

  /** Every index of r comes at or after r's first corner. */
  lemma RectAfter(r: Rect, nx: int, i: int)
    requires 0 <= r.min.x <= r.max.x < nx && 0 <= r.min.y && 0 <= i
    requires InRectIndex(i, r, nx)
    ensures r.min.y * nx + r.min.x <= i
  {
    var y := i / nx;
    assert i == y * nx + i % nx;
    MulLe(r.min.y, y, nx);
  }

  /** Sweeping nothing leaves colours and flags as they were. */
  lemma SweepNone(s0: seq<Sample>, f0: seq<int>, r: Rect, nx: int, d0: Vec4, d1: Vec4, d2: Vec4, d3: Vec4)
    requires nx > 0 && r.min.x < r.max.x && r.min.y < r.max.y
    ensures DataSwept(s0, r, nx, d0, d1, d2, d3, 0) == s0 && FlagsSwept(f0, r, nx, 0) == f0
  {
  }

  /** What interpolate_rect leaves: swept flags set to 0 where they were -1, and swept colours interpolated. */
  lemma InterpolatedFlags(f: seq<int>, r: Rect, nx: int, k: int, i: int)
    requires nx > 0 && 0 <= i < |f|
    ensures InRectIndex(i, r, nx) && i < k ==> FlagsSwept(f, r, nx, k)[i] == (if f[i] < 0 then 0 else f[i])
    ensures !InRectIndex(i, r, nx) ==> FlagsSwept(f, r, nx, k)[i] == f[i]
    ensures f[i] >= 0 ==> FlagsSwept(f, r, nx, k)[i] == f[i]
  {
  }

  /** The sweep's next index, when it lies in r, gets its interpolated colour and a -1 flag becomes 0. */
  lemma SweepStep(s0: seq<Sample>, f0: seq<int>, r: Rect, nx: int, d0: Vec4, d1: Vec4, d2: Vec4, d3: Vec4, k: int)
    requires nx > 0 && r.min.x < r.max.x && r.min.y < r.max.y
    requires |f0| == |s0| && 0 <= k < |s0| && InRectIndex(k, r, nx)
    ensures DataSwept(s0, r, nx, d0, d1, d2, d3, k)[k := Sample(InterpAt(k, r, nx, d0, d1, d2, d3))]
            == DataSwept(s0, r, nx, d0, d1, d2, d3, k + 1)
    ensures var f := FlagsSwept(f0, r, nx, k);
            (if f[k] < 0 then f[k := 0] else f) == FlagsSwept(f0, r, nx, k + 1)
  {
    var f := FlagsSwept(f0, r, nx, k);
    assert f[k] == f0[k];
    assert (if f[k] < 0 then f[k := 0] else f) == FlagsSwept(f0, r, nx, k + 1);
  }

  /** Two sweeps that have reached the same indices of r leave the same colours and flags. */
  lemma SweepSame(s0: seq<Sample>, f0: seq<int>, r: Rect, nx: int, d0: Vec4, d1: Vec4, d2: Vec4, d3: Vec4, k: int, k': int)
    requires nx > 0 && r.min.x < r.max.x && r.min.y < r.max.y
    requires forall i :: 0 <= i < |s0| && InRectIndex(i, r, nx) ==> (i < k <==> i < k')
    requires forall i :: 0 <= i < |f0| && InRectIndex(i, r, nx) ==> (i < k <==> i < k')
    ensures DataSwept(s0, r, nx, d0, d1, d2, d3, k) == DataSwept(s0, r, nx, d0, d1, d2, d3, k')
    ensures FlagsSwept(f0, r, nx, k) == FlagsSwept(f0, r, nx, k')
  {
  }

  /** interpolate_rect's inner loop: row y of r, left to right. */
  method InterpolateRow(s0: seq<Sample>, f0: seq<int>, s1: seq<Sample>, f1: seq<int>, r: Rect, n: Int2,
                        d0: Vec4, d1: Vec4, d2: Vec4, d3: Vec4, y: int)
      returns (s: seq<Sample>, f: seq<int>)
    requires InGrid(r, n) && |s0| == n.x * n.y && |f0| == |s0| && r.min.y <= y <= r.max.y
    requires s1 == DataSwept(s0, r, n.x, d0, d1, d2, d3, y * n.x + r.min.x)
    requires f1 == FlagsSwept(f0, r, n.x, y * n.x + r.min.x)
    ensures s == DataSwept(s0, r, n.x, d0, d1, d2, d3, y * n.x + r.max.x + 1)
    ensures f == FlagsSwept(f0, r, n.x, y * n.x + r.max.x + 1)
  {
    var ty := (y - r.min.y) as real / (r.max.y - r.min.y) as real;
    var d02 := Lerp(d0, d2, ty);
    var d13 := Lerp(d1, d3, ty);
    s, f := s1, f1;
    var x := r.min.x;
    while x <= r.max.x
      invariant r.min.x <= x <= r.max.x + 1
      invariant s == DataSwept(s0, r, n.x, d0, d1, d2, d3, y * n.x + x)
      invariant f == FlagsSwept(f0, r, n.x, y * n.x + x)
    {
      var k := y * n.x + x;
      OffsetInRange(x, y, n.x, n.y);
      DivMod(k, n.x, y, x);
      SweepStep(s0, f0, r, n.x, d0, d1, d2, d3, k);
      s := s[k := Sample(Lerp(d02, d13, (x - r.min.x) as real / (r.max.x - r.min.x) as real))];
      if f[k] < 0 {
        f := f[k := 0];
      }
      x := x + 1;
    }
  }

  /**
   * interpolate_rect's double loop over the closed rectangle r of an n.x by n.y
   * grid, row by row: each point gets the bilinear blend of the corner colours,
   * and each point whose flag is still -1 gets flag 0.
   */
  method Interpolate(s0: seq<Sample>, f0: seq<int>, r: Rect, n: Int2) returns (s: seq<Sample>, f: seq<int>)
    requires InGrid(r, n) && |s0| == n.x * n.y && |f0| == |s0|
    ensures var ds := CornerData(s0, n, r);
      s == DataSwept(s0, r, n.x, ds[0], ds[1], ds[2], ds[3], |s0|)
    ensures f == FlagsSwept(f0, r, n.x, |f0|)
  {
    var d0 := SampleAt(s0, n, Corner(r, 0));
    var d1 := SampleAt(s0, n, Corner(r, 1));
    var d2 := SampleAt(s0, n, Corner(r, 2));
    var d3 := SampleAt(s0, n, Corner(r, 3));
    s, f := s0, f0;
    forall i | 0 <= i < |s0| && InRectIndex(i, r, n.x)
      ensures r.min.y * n.x + r.min.x <= i
    {
      RectAfter(r, n.x, i);
    }
    SweepNone(s0, f0, r, n.x, d0, d1, d2, d3);
    SweepSame(s0, f0, r, n.x, d0, d1, d2, d3, 0, r.min.y * n.x + r.min.x);
    var y := r.min.y;
    while y <= r.max.y
      invariant r.min.y <= y <= r.max.y + 1
      invariant s == DataSwept(s0, r, n.x, d0, d1, d2, d3, y * n.x + r.min.x)
      invariant f == FlagsSwept(f0, r, n.x, y * n.x + r.min.x)
    {
      s, f := InterpolateRow(s0, f0, s, f, r, n, d0, d1, d2, d3, y);
      forall i | y * n.x + r.max.x + 1 <= i < (y + 1) * n.x + r.min.x
        ensures !InRectIndex(i, r, n.x)
      {
        RowGap(r, n.x, y, i);
      }
      SweepSame(s0, f0, r, n.x, d0, d1, d2, d3, y * n.x + r.max.x + 1, (y + 1) * n.x + r.min.x);
      y := y + 1;
    }
    forall i | 0 <= i < |s0| && InRectIndex(i, r, n.x)
      ensures i < y * n.x + r.min.x
    {
      RectBefore(r, n.x, i);
    }
    SweepSame(s0, f0, r, n.x, d0, d1, d2, d3, y * n.x + r.min.x, |s0|);
  }

  /** The blend parameter is 0 at a rectangle's first side and 1 at its last. */
  lemma RatioEnds(a: int, b: int)
    requires a < b
    ensures (a - a) as real / (b - a) as real == 0.0 && (b - a) as real / (b - a) as real == 1.0
  {
    var d := (b - a) as real;
    assert d > 0.0;
    assert 0.0 / d == 0.0;
    assert d / d == 1.0;
  }

  /** The blend reproduces the corner colours at the four corners of r. */
  lemma InterpCorners(r: Rect, nx: int, d0: Vec4, d1: Vec4, d2: Vec4, d3: Vec4, k: int)
    requires 0 <= r.min.x < r.max.x < nx && 0 <= r.min.y < r.max.y && 0 <= k < 4
    ensures InterpAt(Offset(Corner(r, k).x, Corner(r, k).y, nx), r, nx, d0, d1, d2, d3)
            == [d0, d1, d2, d3][k]
  {
    var c := Corner(r, k);
    DivMod(Offset(c.x, c.y, nx), nx, c.y, c.x);
    RatioEnds(r.min.y, r.max.y);
    RatioEnds(r.min.x, r.max.x);
    var ty := (c.y - r.min.y) as real / (r.max.y - r.min.y) as real;
    var tx := (c.x - r.min.x) as real / (r.max.x - r.min.x) as real;
    assert ty == if k < 2 then 0.0 else 1.0;
    assert tx == if k % 2 == 0 then 0.0 else 1.0;
    LerpEnds(d0, d2);
    LerpEnds(d1, d3);
    LerpEnds(Lerp(d0, d2, ty), Lerp(d1, d3, ty));
  }

  // ---------------------------------------------------------------------------
  // The tiles generate_samples stacks
  // ---------------------------------------------------------------------------

  /** The level-zero rectangle of tile cell (x, y): one pixel division on each side. */
  function Tile(x: int, y: int, ndiv: Int2): Rect
  {
    Rect(Int2(x * ndiv.x, y * ndiv.y), Int2(x * ndiv.x + ndiv.x, y * ndiv.y + ndiv.y))
  }

  /** Row y of the tile cells, left to right. */
  function TileRow(y: int, tx: nat, ndiv: Int2): (row: seq<Rect>)
    ensures |row| == tx
  {
    seq(tx, x => Tile(x, y, ndiv))
  }

  /** The first y rows of tile cells, in the order generate_samples pushes them. */
  function TileRows(y: nat, tx: nat, ndiv: Int2): seq<Rect>
  {
    if y == 0 then [] else TileRows(y - 1, tx, ndiv) + TileRow(y - 1, tx, ndiv)
  }

  /** A cell's rectangle lies in the grid of a region whose tile has tx by ty cells. */
  lemma TileInGrid(x: int, y: int, tx: int, ty: int, ndiv: Int2)
    requires 0 <= x < tx && 0 <= y < ty && ndiv.x >= 1 && ndiv.y >= 1
    ensures InGrid(Tile(x, y, ndiv), Int2(ndiv.x * tx + 1, ndiv.y * ty + 1))
    ensures Size(Tile(x, y, ndiv)) == ndiv
  {
    MulLe(0, x, ndiv.x);
    MulLe(0, y, ndiv.y);
    MulLe(x + 1, tx, ndiv.x);
    MulLe(y + 1, ty, ndiv.y);
    assert (x + 1) * ndiv.x == x * ndiv.x + ndiv.x;
    assert (y + 1) * ndiv.y == y * ndiv.y + ndiv.y;
  }

  /**
   * The stacked tiles are tx * ty level-zero rectangles, all in the grid: every
   * corner of every one of them has an offset inside the samples.
   */
  lemma {:induction false} TileRowsInGrid(y: nat, tx: nat, ty: nat, ndiv: Int2)
    requires y <= ty && ndiv.x >= 1 && ndiv.y >= 1
    ensures |TileRows(y, tx, ndiv)| == y * tx
    ensures forall r :: r in TileRows(y, tx, ndiv) ==> InGrid(r, Int2(ndiv.x * tx + 1, ndiv.y * ty + 1)) && Size(r) == ndiv
  {
    if y > 0 {
      var row := y - 1;
      TileRowsInGrid(row, tx, ty, ndiv);
      forall x | 0 <= x < tx
        ensures InGrid(Tile(x, row, ndiv), Int2(ndiv.x * tx + 1, ndiv.y * ty + 1)) && Size(Tile(x, row, ndiv)) == ndiv
      {
        TileInGrid(x, row, tx, ty, ndiv);
      }
      assert (y - 1) * tx + tx == y * tx;
    }
  }

  /** The colour at point p of an n.x by n.y grid of samples. */
  function SampleAt(s: seq<Sample>, n: Int2, p: Int2): Vec4
    requires 0 <= p.x < n.x && 0 <= p.y < n.y && |s| == n.x * n.y
  {
    OffsetInRange(p.x, p.y, n.x, n.y);
    s[p.y * n.x + p.x].data
  }

  /** The colours at a rectangle's four corners, in get_corner_points' order. */
  function CornerData(s: seq<Sample>, n: Int2, r: Rect): (ds: seq<Vec4>)
    requires InGrid(r, n) && |s| == n.x * n.y
    ensures |ds| == 4
  {
    [SampleAt(s, n, Corner(r, 0)), SampleAt(s, n, Corner(r, 1)), SampleAt(s, n, Corner(r, 2)), SampleAt(s, n, Corner(r, 3))]
  }

  /** compare_corners' verdict: both sides at least 2, and two corners differing by more than the threshold in some channel. */
  predicate NeedsSubdivision(s: seq<Sample>, n: Int2, r: Rect, threshold: real)
    requires InGrid(r, n) && |s| == n.x * n.y
  {
    Size(r).x >= 2 && Size(r).y >= 2 && Differ(CornerData(s, n, r), threshold)
  }

  /** The number of samples in an n.x by n.y grid. */
  function Area(n: Int2): nat
    requires n.x >= 0 && n.y >= 0
  {
    MulLe(0, n.y, n.x);
    n.x * n.y
  }

  /** A vector resized to n entries: the first n kept, default samples added at the end. */
  function Resized(s: seq<Sample>, n: nat): (t: seq<Sample>)
    ensures |t| == n && forall i :: 0 <= i < n && i < |s| ==> t[i] == s[i]
  {
    if |s| >= n then s[..n] else s + seq(n - |s|, _ => Sample(ZERO))
  }

  /**
   * update_sample_counts as written: the pixel's sample count is computed from
   * the division count before the division count itself is brought up to date.
   * Returns the new margin, samples per pixel and divisions.
   */
  function SampleCountsAsWritten(ndivBefore: Int2, maxSubdivision: nat, filterMargin: Int2): (Int2, Int2, Int2)
  {
    (filterMargin, PixelSamples(ndivBefore, filterMargin), PixelDivision(maxSubdivision))
  }

  /**
   * On a new sampler (2 divisions) with a maximum subdivision of 2 and no margin,
   * the stored samples per pixel are 3 by 3 while the division of 4 the sampler
   * then works with gives 5 by 5; get_sampleset_in_pixel sizes its output with
   * the latter and copies with the former.
   */
  lemma StalePixelSamples()
    ensures var (m, npx, nd) := SampleCountsAsWritten(Int2(2, 2), 2, Int2(0, 0));
      npx == Int2(3, 3) && nd == Int2(4, 4) && PixelSamples(nd, m) == Int2(5, 5)
  {
    assert Pow2(1) == 2;
    assert Pow2(2) == 4;
  }

  /** generate_samples' first double loop: clears the colour of every sample of an nx by ny grid, row by row. */
  method ClearSamples(s0: seq<Sample>, nx: nat, ny: nat) returns (s: seq<Sample>)
    requires |s0| == nx * ny
    ensures s == seq(nx * ny, _ => Sample(ZERO))
  {
    s := s0;
    var sampleId := 0;
    var y := 0;
    while y < ny
      invariant 0 <= y <= ny && sampleId == y * nx && |s| == nx * ny && sampleId <= |s|
      invariant forall i :: 0 <= i < sampleId ==> s[i] == Sample(ZERO)
    {
      var x := 0;
      while x < nx
        invariant 0 <= x <= nx && sampleId == y * nx + x && |s| == nx * ny && sampleId <= |s|
        invariant forall i :: 0 <= i < sampleId ==> s[i] == Sample(ZERO)
      {
        OffsetInRange(x, y, nx, ny);
        s := s[sampleId := Sample(ZERO)];
        sampleId := sampleId + 1;
        x := x + 1;
      }
      assert (y + 1) * nx == y * nx + nx;
      y := y + 1;
    }
  }

  /** generate_samples' second double loop: pushes the rectangle of every tile cell, row by row. */
  method StackTiles(tx: nat, ty: nat, ndiv: Int2) returns (stack: seq<Rect>)
    ensures stack == TileRows(ty, tx, ndiv)
  {
    stack := [];
    var y := 0;
    while y < ty
      invariant 0 <= y <= ty && stack == TileRows(y, tx, ndiv)
    {
      var x := 0;
      while x < tx
        invariant 0 <= x <= tx && stack == TileRows(y, tx, ndiv) + TileRow(y, tx, ndiv)[..x]
      {
        assert TileRow(y, tx, ndiv)[..x + 1] == TileRow(y, tx, ndiv)[..x] + [Tile(x, y, ndiv)];
        stack := stack + [Tile(x, y, ndiv)];
        x := x + 1;
      }
      assert TileRow(y, tx, ndiv)[..tx] == TileRow(y, tx, ndiv);
      y := y + 1;
    }
  }
  /**
   * The grid generate_samples lays out for a region: the region's sample counts,
   * the samples resized to them and cleared, and one level-zero rectangle per tile
   * cell, every one of them in the grid.
   */
  method LayOutGrid(s0: seq<Sample>, region: Rect, ndiv: Int2, margin: Int2) returns (ns: Int2, cleared: seq<Sample>, tiles: seq<Rect>)
    requires region.min.x <= region.max.x && region.min.y <= region.max.y
    requires ndiv.x >= 1 && ndiv.y >= 1 && margin.x >= 0 && margin.y >= 0
    ensures ns == RegionSamples(ndiv, Size(region), margin) && ns.x >= 1 && ns.y >= 1
    ensures |cleared| == ns.x * ns.y && cleared == seq(Area(ns), _ => Sample(ZERO))
    ensures tiles == TileRows(Size(region).y + 2 * margin.y, Size(region).x + 2 * margin.x, ndiv)
    ensures forall r :: r in tiles ==> InGrid(r, ns)
  {
    var tx := Size(region).x + 2 * margin.x;
    var ty := Size(region).y + 2 * margin.y;
    ns := RegionSamples(ndiv, Size(region), margin);
    RegionSamplesPositive(ndiv, Size(region), margin);
    cleared := ClearSamples(Resized(s0, Area(ns)), ns.x, ns.y);
    tiles := StackTiles(tx, ty, ndiv);
    TileRowsInGrid(ty, tx, ty, ndiv);
    assert ns == Int2(ndiv.x * tx + 1, ndiv.y * ty + 1);
  }


  /** An index below a*b of an a-wide grid lies in one of its b rows. */
  lemma DivBound(i: int, a: int, b: int)
    requires a >= 1 && 0 <= i < a * b
    ensures 0 <= i / a < b
  {
  }

  /** Sample i of a pixel's npx.x by npx.y block whose first sample is grid point origin. */
  function BlockSample(src: seq<Sample>, n: Int2, origin: Int2, npx: Int2, i: int): Sample
    requires 0 <= origin.x && 0 <= origin.y && npx.x >= 1 && npx.y >= 1
    requires origin.x + npx.x <= n.x && origin.y + npx.y <= n.y && |src| == n.x * n.y
    requires 0 <= i < npx.x * npx.y
  {
    DivBound(i, npx.x, npx.y);
    OffsetInRange(origin.x + i % npx.x, origin.y + i / npx.x, n.x, n.y);
    src[Offset(origin.x + i % npx.x, origin.y + i / npx.x, n.x)]
  }

  /** get_sampleset_in_pixel's inner loop: row y of the block, copied to row y of the destination. */
  method CopyRow(src: seq<Sample>, n: Int2, origin: Int2, npx: Int2, d0: seq<Sample>, d1: seq<Sample>, y: int)
      returns (d: seq<Sample>)
    requires 0 <= origin.x && 0 <= origin.y && npx.x >= 1 && npx.y >= 1
    requires origin.x + npx.x <= n.x && origin.y + npx.y <= n.y && |src| == n.x * n.y
    requires 0 <= y < npx.y && npx.x * npx.y <= |d0| && |d1| == |d0|
    requires y * npx.x + npx.x <= npx.x * npx.y
    requires forall i :: 0 <= i < y * npx.x ==> d1[i] == BlockSample(src, n, origin, npx, i)
    requires forall i :: y * npx.x <= i < |d0| ==> d1[i] == d0[i]
    ensures |d| == |d0|
    ensures forall i :: 0 <= i < y * npx.x + npx.x ==> d[i] == BlockSample(src, n, origin, npx, i)
    ensures forall i :: y * npx.x + npx.x <= i < |d0| ==> d[i] == d0[i]
  {
    var offset := origin.y * n.x + origin.x;
    d := d1;
    var x := 0;
    while x < npx.x
      invariant 0 <= x <= npx.x && |d| == |d0|
      invariant forall i :: 0 <= i < y * npx.x + x ==> d[i] == BlockSample(src, n, origin, npx, i)
      invariant forall i :: y * npx.x + x <= i < |d0| ==> d[i] == d0[i]
    {
      var k := y * npx.x + x;
      DivMod(k, npx.x, y, x);
      assert offset + y * n.x + x == Offset(origin.x + x, origin.y + y, n.x);
      OffsetInRange(origin.x + x, origin.y + y, n.x, n.y);
      d := d[k := src[offset + y * n.x + x]];
      x := x + 1;
    }
  }

  /**
   * get_sampleset_in_pixel's double loop: copies the npx.x by npx.y block of the
   * grid whose first sample is grid point origin, row by row, to the start of d0.
   */
  method CopyBlock(src: seq<Sample>, n: Int2, origin: Int2, npx: Int2, d0: seq<Sample>) returns (d: seq<Sample>)
    requires 0 <= origin.x && 0 <= origin.y && npx.x >= 1 && npx.y >= 1
    requires origin.x + npx.x <= n.x && origin.y + npx.y <= n.y && |src| == n.x * n.y
    requires npx.x * npx.y <= |d0|
    ensures |d| == |d0|
    ensures forall i :: 0 <= i < npx.x * npx.y ==> d[i] == BlockSample(src, n, origin, npx, i)
    ensures forall i :: npx.x * npx.y <= i < |d0| ==> d[i] == d0[i]
  {
    d := d0;
    var y := 0;
    while y < npx.y
      invariant 0 <= y <= npx.y && |d| == |d0| && y * npx.x <= npx.x * npx.y
      invariant forall i :: 0 <= i < y * npx.x ==> d[i] == BlockSample(src, n, origin, npx, i)
      invariant forall i :: y * npx.x <= i < |d0| ==> d[i] == d0[i]
    {
      OffsetInRange(npx.x - 1, y, npx.x, npx.y);
      d := CopyRow(src, n, origin, npx, d0, d, y);
      assert y * npx.x + npx.x == (y + 1) * npx.x;
      y := y + 1;
    }
  }

  // ---------------------------------------------------------------------------
  // The sampler
  // ---------------------------------------------------------------------------

  /** The flags say nothing but -1 (not yet produced), 0 (level-zero or interpolated) and 1 (subdivided). */
  predicate FlagValues(f: seq<int>)
  {
    forall i :: 0 <= i < |f| ==> -1 <= f[i] <= 1
  }

  class AdaptiveGridSampler {
    /** The sample grid, row-major, and its width and height. */
    var samples: seq<Sample>
    var nsamples: Int2
    /** The region's first pixel, the margin in pixels, the samples per pixel and the divisions per pixel. */
    var pixelStart: Int2
    var margin: Int2
    var npxlsmps: Int2
    var ndivision: Int2
    /** Per-sample flags: -1 until produced or interpolated. */
    var subdFlag: seq<int>
    /** The rectangles still to do; the top is the last element. */
    var subdStack: seq<Rect>
    /** How many corners of the top rectangle have been visited. */
    var currCorner: int
    /** The sampler's settings: maximum subdivision, subdivision threshold, and the filter margin (already rounded up). */
    var maxSubdivision: nat
    var subdivisionThreshold: real
    var filterMargin: Int2

    /** The state get_next_sample relies on: corner count, flags, and every stacked rectangle inside the grid. */
    predicate Valid()
      reads this
    {
      && 0 <= currCorner <= 4
      && |subdFlag| == |samples|
      && FlagValues(subdFlag)
      && (subdStack != [] ==> |samples| == nsamples.x * nsamples.y)
      && (forall r :: r in subdStack ==> InGrid(r, nsamples))
    }

    /** What generate_samples leaves for get_sampleset_in_pixel: the counts of the current division and a full grid. */
    predicate Ready()
      reads this
    {
      && ndivision.x >= 1 && ndivision.y >= 1 && margin.x >= 0 && margin.y >= 0
      && npxlsmps == PixelSamples(ndivision, margin) && npxlsmps.x >= 1 && npxlsmps.y >= 1
      && nsamples.x >= 1 && nsamples.y >= 1 && |samples| == nsamples.x * nsamples.y
    }

    /** Pixel p's block of samples, which starts ndivision samples per pixel from the region's first pixel, lies in the grid. */
    predicate PixelInGrid(p: Int2)
      reads this
    {
      BlockInGrid(p, pixelStart, ndivision, npxlsmps, nsamples)
    }

    /**
     * Index i is the grid offset of the top rectangle's corner visited last, and
     * its flag is 0 when that rectangle is level zero (one pixel division on each
     * side) and 1 otherwise.
     */
    predicate VisitedCorner(i: int)
      reads this
    {
      && subdStack != [] && 1 <= currCorner <= 4 && 0 <= i < |subdFlag|
      && var top := subdStack[|subdStack| - 1];
         var c := Corner(top, currCorner - 1);
         i == Offset(c.x, c.y, nsamples.x) && subdFlag[i] == (if Size(top) == ndivision then 0 else 1)
    }

    /** A new sampler: one sample per axis, no margin, 2 divisions, nothing stacked. */
    constructor (maxSubdivision: nat, subdivisionThreshold: real, filterMargin: Int2)
      ensures Valid()
      ensures samples == [] && subdFlag == [] && subdStack == [] && currCorner == 0
      ensures nsamples == Int2(1, 1) && pixelStart == Int2(0, 0) && margin == Int2(0, 0)
      ensures npxlsmps == Int2(1, 1) && ndivision == Int2(2, 2)
      ensures this.maxSubdivision == maxSubdivision && this.subdivisionThreshold == subdivisionThreshold
      ensures this.filterMargin == filterMargin
    {
      samples := [];
      nsamples := Int2(1, 1);
      pixelStart := Int2(0, 0);
      margin := Int2(0, 0);
      npxlsmps := Int2(1, 1);
      ndivision := Int2(2, 2);
      subdFlag := [];
      subdStack := [];
      currCorner := 0;
      this.maxSubdivision := maxSubdivision;
      this.subdivisionThreshold := subdivisionThreshold;
      this.filterMargin := filterMargin;
    }

    /**
     * update_sample_counts, with the division count computed first so that the
     * samples per pixel are those of the current division.
     */
    method UpdateSampleCounts()
      modifies this
      ensures margin == filterMargin && ndivision == PixelDivision(maxSubdivision)
      ensures npxlsmps == PixelSamples(ndivision, margin)
      ensures samples == old(samples) && nsamples == old(nsamples) && pixelStart == old(pixelStart)
      ensures subdFlag == old(subdFlag) && subdStack == old(subdStack) && currCorner == old(currCorner)
      ensures maxSubdivision == old(maxSubdivision) && subdivisionThreshold == old(subdivisionThreshold)
      ensures filterMargin == old(filterMargin)
    {
      margin := filterMargin;
      ndivision := PixelDivision(maxSubdivision);
      npxlsmps := PixelSamples(ndivision, margin);
    }

    /**
     * generate_samples for a region of pixels: the grid covers the region and its
     * margins, every sample's colour is cleared, every flag is -1, and one
     * level-zero rectangle per tile cell is stacked, row by row.
     */
    method GenerateSamples(region: Rect) returns (result: int)
      requires region.min.x <= region.max.x && region.min.y <= region.max.y
      requires filterMargin.x >= 0 && filterMargin.y >= 0
      modifies this
      ensures maxSubdivision == old(maxSubdivision) && subdivisionThreshold == old(subdivisionThreshold)
      ensures filterMargin == old(filterMargin)
      ensures result == 0 && Valid()
      ensures margin == filterMargin && ndivision == PixelDivision(maxSubdivision)
      ensures npxlsmps == PixelSamples(ndivision, margin)
      ensures nsamples == RegionSamples(ndivision, Size(region), margin) && pixelStart == region.min
      ensures nsamples.x >= 1 && nsamples.y >= 1
      ensures samples == seq(Area(nsamples), _ => Sample(ZERO))
      ensures subdFlag == seq(Area(nsamples), _ => -1)
      ensures currCorner == 0
      ensures subdStack == TileRows(Size(region).y + 2 * margin.y, Size(region).x + 2 * margin.x, ndivision)
      ensures Ready()
      ensures forall p: Int2 :: region.min.x <= p.x < region.max.x && region.min.y <= p.y < region.max.y ==> PixelInGrid(p)
    {
      UpdateSampleCounts();
      var ns, cleared, tiles := LayOutGrid(samples, region, ndivision, margin);
      RegionPixelsFit(ndivision, margin, region);
      nsamples, pixelStart, currCorner := ns, region.min, 0;
      samples, subdFlag, subdStack := cleared, seq(|cleared|, _ => -1), tiles;
      assert FlagValues(subdFlag);
      result := 0;
    }

    /**
     * compare_corners: false when a side is shorter than 2; otherwise whether, in
     * some channel, the corners' maximum exceeds their minimum by more than the
     * subdivision threshold.
     */
    method CompareCorners(rect: Rect) returns (beyondThreshold: bool)
      requires InGrid(rect, nsamples) && |samples| == nsamples.x * nsamples.y
      ensures beyondThreshold == NeedsSubdivision(samples, nsamples, rect, subdivisionThreshold)
    {
      var size := Size(rect);
      if size.x < 2 || size.y < 2 {
        return false;
      }
      var ds := CornerData(samples, nsamples, rect);
      var lo, hi := ZERO, ZERO;
      var i := 0;
      while i < 4
        invariant 0 <= i <= 4
        invariant i >= 1 ==> lo == MinOf(ds, i) && hi == MaxOf(ds, i)
      {
        var data := SampleAt(samples, nsamples, Corner(rect, i));
        if i == 0 {
          lo, hi := data, data;
        } else {
          lo, hi := VMin(lo, data), VMax(hi, data);
        }
        i := i + 1;
      }
      beyondThreshold := false;
      var c := 0;
      while c < 4
        invariant 0 <= c <= 4 && !beyondThreshold
        invariant forall c' :: 0 <= c' < c ==> Ch(hi, c') - Ch(lo, c') <= subdivisionThreshold
      {
        if Ch(hi, c) - Ch(lo, c) > subdivisionThreshold {
          beyondThreshold := true;
          break;
        }
        c := c + 1;
      }
      SpreadDiffers(ds, subdivisionThreshold);
    }

    /** subdivide_rect: pushes the four quadrants of rect, which meet at its midpoints. */
    method SubdivideRect(rect: Rect)
      modifies this
      ensures subdStack == old(subdStack) + Quadrants(rect)
      ensures samples == old(samples) && subdFlag == old(subdFlag) && currCorner == old(currCorner)
      ensures nsamples == old(nsamples) && pixelStart == old(pixelStart) && margin == old(margin)
      ensures npxlsmps == old(npxlsmps) && ndivision == old(ndivision)
      ensures maxSubdivision == old(maxSubdivision) && subdivisionThreshold == old(subdivisionThreshold)
      ensures filterMargin == old(filterMargin)
    {
      var c0, c1, c2, c3 := Corner(rect, 0), Corner(rect, 1), Corner(rect, 2), Corner(rect, 3);
      var p0 := MidPoint(c0, c1);
      var p1 := MidPoint(c0, c2);
      var p2 := MidPoint(c2, c3);
      var p3 := MidPoint(c1, c3);
      var p4 := MidPoint(p0, p2);
      Div2Twice(rect.min.x);
      Div2Twice(rect.min.y);
      Div2Twice(rect.max.x);
      Div2Twice(rect.max.y);
      Div2Twice(Div2(rect.min.x + rect.max.x));
      subdStack := subdStack + [Rect(c0, p4)];
      subdStack := subdStack + [Rect(p0, p3)];
      subdStack := subdStack + [Rect(p1, p2)];
      subdStack := subdStack + [Rect(p4, c3)];
    }

    /**
     * interpolate_rect: every point of the closed rectangle gets the bilinear
     * blend of the four corner colours, and every point still flagged -1 is
     * flagged 0; flags already set are left alone.
     */
    method InterpolateRect(rect: Rect)
      requires InGrid(rect, nsamples) && |samples| == nsamples.x * nsamples.y && |subdFlag| == |samples|
      modifies this
      ensures nsamples == old(nsamples) && pixelStart == old(pixelStart) && margin == old(margin)
      ensures npxlsmps == old(npxlsmps) && ndivision == old(ndivision)
      ensures subdStack == old(subdStack) && currCorner == old(currCorner)
      ensures maxSubdivision == old(maxSubdivision) && subdivisionThreshold == old(subdivisionThreshold)
      ensures filterMargin == old(filterMargin)
      ensures var ds := CornerData(old(samples), nsamples, rect);
        samples == DataSwept(old(samples), rect, nsamples.x, ds[0], ds[1], ds[2], ds[3], |samples|)
      ensures subdFlag == FlagsSwept(old(subdFlag), rect, nsamples.x, |subdFlag|)
    {
      samples, subdFlag := Interpolate(samples, subdFlag, rect, nsamples);
    }

    /** subdivide_or_interpolate: subdivides rect when compare_corners says so, and interpolates it otherwise. */
    method SubdivideOrInterpolate(rect: Rect) returns (needSubd: bool)
      requires InGrid(rect, nsamples) && |samples| == nsamples.x * nsamples.y && |subdFlag| == |samples|
      modifies this
      ensures nsamples == old(nsamples) && pixelStart == old(pixelStart) && margin == old(margin)
      ensures npxlsmps == old(npxlsmps) && ndivision == old(ndivision) && currCorner == old(currCorner)
      ensures maxSubdivision == old(maxSubdivision) && subdivisionThreshold == old(subdivisionThreshold)
      ensures filterMargin == old(filterMargin)
      ensures needSubd == NeedsSubdivision(old(samples), nsamples, rect, subdivisionThreshold)
      ensures needSubd ==> subdStack == old(subdStack) + Quadrants(rect)
      ensures needSubd ==> samples == old(samples) && subdFlag == old(subdFlag)
      ensures !needSubd ==> subdStack == old(subdStack)
      ensures !needSubd ==> var ds := CornerData(old(samples), nsamples, rect);
        samples == DataSwept(old(samples), rect, nsamples.x, ds[0], ds[1], ds[2], ds[3], |samples|)
      ensures !needSubd ==> subdFlag == FlagsSwept(old(subdFlag), rect, nsamples.x, |subdFlag|)
    {
      needSubd := CompareCorners(rect);
      if needSubd {
        SubdivideRect(rect);
      } else {
        InterpolateRect(rect);
      }
    }

    /** get_next_sample once all four corners are done: pops the top rectangle, then subdivides or interpolates it. */
    method FinishTop()
      requires Valid() && subdStack != [] && currCorner == 4
      modifies this
      ensures Valid() && currCorner == 0
      ensures nsamples == old(nsamples) && pixelStart == old(pixelStart) && margin == old(margin)
      ensures npxlsmps == old(npxlsmps) && ndivision == old(ndivision)
      ensures maxSubdivision == old(maxSubdivision) && subdivisionThreshold == old(subdivisionThreshold)
      ensures filterMargin == old(filterMargin)
      ensures |samples| == old(|samples|) && |subdFlag| == old(|subdFlag|)
      ensures forall i :: 0 <= i < |subdFlag| && old(subdFlag)[i] >= 0 ==> subdFlag[i] == old(subdFlag)[i]
      ensures Potential(subdStack) + 4 < old(Potential(subdStack))
      ensures var top, rest := old(subdStack)[|old(subdStack)| - 1], old(subdStack)[..|old(subdStack)| - 1];
        NeedsSubdivision(old(samples), nsamples, top, subdivisionThreshold) ==>
          subdStack == rest + Quadrants(top) && samples == old(samples) && subdFlag == old(subdFlag)
      ensures var top, rest := old(subdStack)[|old(subdStack)| - 1], old(subdStack)[..|old(subdStack)| - 1];
        !NeedsSubdivision(old(samples), nsamples, top, subdivisionThreshold) ==>
          && subdStack == rest
          && var ds := CornerData(old(samples), nsamples, top);
          && samples == DataSwept(old(samples), top, nsamples.x, ds[0], ds[1], ds[2], ds[3], |samples|)
          && subdFlag == FlagsSwept(old(subdFlag), top, nsamples.x, |subdFlag|)
    {
      var rect := subdStack[|subdStack| - 1];
      var rest := subdStack[..|subdStack| - 1];
      assert Potential(subdStack) == Potential(rest) + Weight(rect);
      assert InGrid(rect, nsamples);
      currCorner := 0;
      subdStack := rest;
      var needSubd := SubdivideOrInterpolate(rect);
      if needSubd {
        QuadrantsSplit(rect, nsamples);
        QuadrantsWeigh(rect, nsamples);
        PotentialQuadrants(rest, rect);
      }
    }

    /**
     * get_next_sample's visit of the top rectangle's next corner: when its flag
     * is still -1, flags it 0 (level-zero rectangle) or 1, and reports it found.
     */
    method VisitCorner() returns (found: bool, offset: nat)
      requires Valid() && subdStack != [] && currCorner < 4
      modifies this
      ensures Valid() && subdStack == old(subdStack) && currCorner == old(currCorner) + 1
      ensures nsamples == old(nsamples) && pixelStart == old(pixelStart) && margin == old(margin)
      ensures npxlsmps == old(npxlsmps) && ndivision == old(ndivision)
      ensures maxSubdivision == old(maxSubdivision) && subdivisionThreshold == old(subdivisionThreshold)
      ensures filterMargin == old(filterMargin)
      ensures samples == old(samples) && |subdFlag| == old(|subdFlag|)
      ensures forall i :: 0 <= i < |subdFlag| && old(subdFlag)[i] >= 0 ==> subdFlag[i] == old(subdFlag)[i]
      ensures found ==> offset < |subdFlag| && old(subdFlag)[offset] < 0 && VisitedCorner(offset)
      ensures !found ==> subdFlag == old(subdFlag)
    {
      var rect := subdStack[|subdStack| - 1];
      var size := Size(rect);
      var isLevelZero := size.x == ndivision.x && size.y == ndivision.y;
      assert InGrid(rect, nsamples);
      var corner := Corner(rect, currCorner);
      CornersInGrid(rect, nsamples, currCorner);
      OffsetInRange(corner.x, corner.y, nsamples.x, nsamples.y);
      currCorner := currCorner + 1;
      offset := corner.y * nsamples.x + corner.x;
      found := subdFlag[offset] < 0;
      if found {
        if isLevelZero {
          subdFlag := subdFlag[offset := 0];
        } else {
          subdFlag := subdFlag[offset := 1];
        }
      }
    }

    /**
     * get_next_sample: visits the corners of the rectangle on top of the stack
     * one at a time, and hands out the first corner whose flag is still -1,
     * flagging it 0 when the rectangle is level zero and 1 otherwise; after the
     * fourth corner it pops the rectangle and subdivides or interpolates it.
     * Returns the sample's index, or None once the stack is empty.
     */
    method GetNextSample() returns (next: Option<nat>)
      requires Valid()
      modifies this
      ensures Valid()
      ensures nsamples == old(nsamples) && pixelStart == old(pixelStart) && margin == old(margin)
      ensures npxlsmps == old(npxlsmps) && ndivision == old(ndivision)
      ensures maxSubdivision == old(maxSubdivision) && subdivisionThreshold == old(subdivisionThreshold)
      ensures filterMargin == old(filterMargin)
      ensures |samples| == old(|samples|)
      ensures forall i :: 0 <= i < |subdFlag| && old(subdFlag)[i] >= 0 ==> subdFlag[i] == old(subdFlag)[i]
      ensures next.None? ==> subdStack == []
      ensures next.Some? ==> next.value < |subdFlag| && old(subdFlag)[next.value] < 0
      ensures next.Some? ==> VisitedCorner(next.value)
    {
      while subdStack != []
        invariant Valid()
        invariant nsamples == old(nsamples) && pixelStart == old(pixelStart) && margin == old(margin)
        invariant npxlsmps == old(npxlsmps) && ndivision == old(ndivision)
        invariant maxSubdivision == old(maxSubdivision) && subdivisionThreshold == old(subdivisionThreshold)
        invariant filterMargin == old(filterMargin)
        invariant |samples| == old(|samples|) && |subdFlag| == |samples|
        invariant forall i :: 0 <= i < |subdFlag| && old(subdFlag)[i] >= 0 ==> subdFlag[i] == old(subdFlag)[i]
        decreases Potential(subdStack) + 4 - currCorner
      {
        if currCorner == 4 {
          FinishTop();
        } else {
          var found, offset := VisitCorner();
          if found {
            return Some(offset);
          }
        }
      }
      return None;
    }

    /**
     * get_sampleset_in_pixel: grows the output to a pixel's sample count when it
     * is shorter, and copies the pixel's block of samples into its start, row by
     * row; the rest of the output is left as it was.
     */
    method GetSamplesetInPixel(pixelsamples: seq<Sample>, pixelPos: Int2) returns (dst: seq<Sample>)
      requires Ready() && PixelInGrid(pixelPos)
      ensures |dst| == if |pixelsamples| < Area(npxlsmps) then Area(npxlsmps) else |pixelsamples|
      ensures forall i :: 0 <= i < Area(npxlsmps) ==>
        dst[i] == BlockSample(samples, nsamples, Int2((pixelPos.x - pixelStart.x) * ndivision.x, (pixelPos.y - pixelStart.y) * ndivision.y), npxlsmps, i)
      ensures forall i :: Area(npxlsmps) <= i < |pixelsamples| ==> dst[i] == pixelsamples[i]
    {
      var origin := Int2((pixelPos.x - pixelStart.x) * ndivision.x, (pixelPos.y - pixelStart.y) * ndivision.y);
      MulLe(0, pixelPos.x - pixelStart.x, ndivision.x);
      MulLe(0, pixelPos.y - pixelStart.y, ndivision.y);
      var sampleCount := Area(PixelSamples(ndivision, margin));
      dst := pixelsamples;
      if |dst| < sampleCount {
        dst := Resized(dst, sampleCount);
      }
      dst := CopyBlock(samples, nsamples, origin, npxlsmps, dst);
    }
  }
}
