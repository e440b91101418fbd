/**
 * The canvas the two cleanup programs work on, a `draw.Image` read and written
 * in place through `At` and `Set`, and the scan they run over it: every pixel
 * once, x outer and y inner, each visit deciding from the canvas as it stands,
 * so pixels cleared earlier in the scan count at later visits.
 */
module CleanImage {
  import opened Common

  /** One 16-bit channel of what `Color.RGBA()` reports. */
  type Channel = c: int | 0 <= c < 0x1_0000

  /** A pixel as `RGBA()` reports it; neither program reads alpha. */
  datatype Rgb = Rgb(r: Channel, g: Channel, b: Channel)

  /** `color.NRGBA{255, 255, 255, 255}` as `RGBA()` reports it. */
  const White: Rgb := Rgb(0xffff, 0xffff, 0xffff)

  /** A canvas by columns: `g[x][y]` is the pixel at (x, y). */
  type Grid = seq<seq<Rgb>>

  predicate IsGrid(g: Grid, w: int, h: int)
  {
    |g| == w && forall x :: 0 <= x < w ==> |g[x]| == h
  }

  /** Whether (i, j) is visited before (x, y) by a scan with x outer and y inner. */
  predicate Before(i: int, j: int, x: int, y: int)
  {
    i < x || (i == x && j < y)
  }

  /**
   * The canvas as the visit of (x, y) finds it, in a scan that starts from g0 and
   * ends in g1: the pixels visited earlier hold their final values, the rest
   * their original ones.
   */
  function View(g0: Grid, g1: Grid, x: int, y: int): (v: Grid)
    ensures |v| == |g0| && forall i :: 0 <= i < |g0| ==> |v[i]| == |g0[i]|
    ensures forall i, j :: 0 <= i < |g0| && 0 <= j < |g0[i]| ==>
              v[i][j] == if Before(i, j, x, y) && i < |g1| && j < |g1[i]| then g1[i][j] else g0[i][j]
  {
    seq(|g0|, i requires 0 <= i < |g0| =>
      seq(|g0[i]|, j requires 0 <= j < |g0[i]| =>
        if Before(i, j, x, y) && i < |g1| && j < |g1[i]| then g1[i][j] else g0[i][j]))
  }

  /** One visit: pixel (x, y) takes the value the rule computes from the canvas as it stands. */
  function Visit(g: Grid, x: int, y: int, rule: (Grid, int, int) -> Rgb): (r: Grid)
    ensures |r| == |g| && forall i :: 0 <= i < |g| ==> |r[i]| == |g[i]|
  {
    if 0 <= x < |g| && 0 <= y < |g[x]| then g[x := g[x][y := rule(g, x, y)]] else g
  }

  /** The inner loop: visit (x, y), (x, y + 1), ..., (x, h - 1). */
  function ScanColumn(g: Grid, x: int, y: int, h: int, rule: (Grid, int, int) -> Rgb): (r: Grid)
    ensures |r| == |g| && forall i :: 0 <= i < |g| ==> |r[i]| == |g[i]|
    decreases h - y
  {
    if y >= h then g else ScanColumn(Visit(g, x, y, rule), x, y + 1, h, rule)
  }

  /** The outer loop from column x on. */
  function ScanFrom(g: Grid, x: int, w: int, h: int, rule: (Grid, int, int) -> Rgb): (r: Grid)
    ensures |r| == |g| && forall i :: 0 <= i < |g| ==> |r[i]| == |g[i]|
    decreases w - x
  {
    if x >= w then g else ScanFrom(ScanColumn(g, x, 0, h, rule), x + 1, w, h, rule)
  }

  /** A whole scan of a w x h canvas. */
  function Scan(g: Grid, w: int, h: int, rule: (Grid, int, int) -> Rgb): (r: Grid)
    ensures IsGrid(g, w, h) ==> IsGrid(r, w, h)
  {
    ScanFrom(g, 0, w, h, rule)
  }

  /** Every pixel of g1 is what the rule gives on the canvas as its visit found it. */
  ghost predicate Scanned(g0: Grid, g1: Grid, w: int, h: int, rule: (Grid, int, int) -> Rgb)
  {
    IsGrid(g1, w, h) &&
    forall x, y :: InBounds(x, y, w, h) ==> g1[x][y] == rule(View(g0, g1, x, y), x, y)
  }

  /** The state of a scan of g0 just before the visit of (x, y). */
  ghost predicate ScannedTo(g0: Grid, cur: Grid, x: int, y: int, w: int, h: int, rule: (Grid, int, int) -> Rgb)
  {
    IsGrid(g0, w, h) && IsGrid(cur, w, h) &&
    (forall i, j :: InBounds(i, j, w, h) && !Before(i, j, x, y) ==> cur[i][j] == g0[i][j]) &&
    (forall i, j :: InBounds(i, j, w, h) && Before(i, j, x, y) ==> cur[i][j] == rule(View(g0, cur, i, j), i, j))
  }

  /** Writing a pixel not yet visited by (i, j) leaves the view of (i, j) alone. */
  lemma {:induction false} ViewUnchanged(g0: Grid, cur: Grid, x: int, y: int, c: Rgb, i: int, j: int, w: int, h: int)
    requires IsGrid(g0, w, h) && IsGrid(cur, w, h) && InBounds(x, y, w, h) && !Before(x, y, i, j)
    ensures View(g0, cur[x := cur[x][y := c]], i, j) == View(g0, cur, i, j)
  {
    var v1 := View(g0, cur[x := cur[x][y := c]], i, j);
    var v2 := View(g0, cur, i, j);
    forall a | 0 <= a < w ensures v1[a] == v2[a] {
      forall b | 0 <= b < h ensures v1[a][b] == v2[a][b] {
        if Before(a, b, i, j) {
          assert a != x || b != y;
        }
      }
    }
  }

  /** Just before the visit of (x, y) the canvas is exactly its view. */
  lemma {:induction false} ViewAtVisit(g0: Grid, cur: Grid, x: int, y: int, w: int, h: int, rule: (Grid, int, int) -> Rgb)
    requires ScannedTo(g0, cur, x, y, w, h, rule)
    ensures View(g0, cur, x, y) == cur
  {
    var v := View(g0, cur, x, y);
    forall a | 0 <= a < w ensures v[a] == cur[a] {
      forall b | 0 <= b < h ensures v[a][b] == cur[a][b] {
        if !Before(a, b, x, y) {
          assert cur[a][b] == g0[a][b];
        }
      }
    }
  }

  /** One visit keeps the scan state, one pixel further on. */
  lemma {:induction false} VisitStep(g0: Grid, cur: Grid, x: int, y: int, w: int, h: int, rule: (Grid, int, int) -> Rgb)
    requires ScannedTo(g0, cur, x, y, w, h, rule) && InBounds(x, y, w, h)
    ensures ScannedTo(g0, Visit(cur, x, y, rule), x, y + 1, w, h, rule)
  {
    var c := rule(cur, x, y);
    var next := cur[x := cur[x][y := c]];
    assert Visit(cur, x, y, rule) == next;
    ViewAtVisit(g0, cur, x, y, w, h, rule);
    ViewUnchanged(g0, cur, x, y, c, x, y, w, h);
    forall i, j | InBounds(i, j, w, h) && Before(i, j, x, y + 1)
      ensures next[i][j] == rule(View(g0, next, i, j), i, j)
    {
      ViewUnchanged(g0, cur, x, y, c, i, j, w, h);
    }
  }

  /** The end of column x is the start of column x + 1. */
  lemma {:induction false} ColumnDone(g0: Grid, cur: Grid, x: int, w: int, h: int, rule: (Grid, int, int) -> Rgb)
    requires ScannedTo(g0, cur, x, h, w, h, rule)
    ensures ScannedTo(g0, cur, x + 1, 0, w, h, rule)
  {
    forall i, j | InBounds(i, j, w, h) ensures Before(i, j, x, h) == Before(i, j, x + 1, 0) {
    }
  }

  lemma {:induction false} ScanColumnScanned(g0: Grid, cur: Grid, x: int, y: int, w: int, h: int, rule: (Grid, int, int) -> Rgb)
    requires ScannedTo(g0, cur, x, y, w, h, rule) && 0 <= x < w && 0 <= y
    ensures ScannedTo(g0, ScanColumn(cur, x, y, h, rule), x, if y <= h then h else y, w, h, rule)
    decreases h - y
  {
    if y < h {
      VisitStep(g0, cur, x, y, w, h, rule);
      ScanColumnScanned(g0, Visit(cur, x, y, rule), x, y + 1, w, h, rule);
    }
  }

  lemma {:induction false} ScanFromScanned(g0: Grid, cur: Grid, x: int, w: int, h: int, rule: (Grid, int, int) -> Rgb)
    requires ScannedTo(g0, cur, x, 0, w, h, rule) && 0 <= x <= w && 0 <= h
    ensures ScannedTo(g0, ScanFrom(cur, x, w, h, rule), w, 0, w, h, rule)
    decreases w - x
  {
    if x < w {
      var next := ScanColumn(cur, x, 0, h, rule);
      assert ScanFrom(cur, x, w, h, rule) == ScanFrom(next, x + 1, w, h, rule);
      ScanColumnScanned(g0, cur, x, 0, w, h, rule);
      ColumnDone(g0, next, x, w, h, rule);
      ScanFromScanned(g0, next, x + 1, w, h, rule);
    }
  }

  /**
   * What a scan computes, pixel by pixel: each pixel is the rule applied to the
   * canvas as its visit found it, with the pixels before it already rewritten.
   */
  lemma {:induction false} ScanVisitsEach(g0: Grid, w: int, h: int, rule: (Grid, int, int) -> Rgb)
    requires IsGrid(g0, w, h) && 0 <= h
    ensures Scanned(g0, Scan(g0, w, h, rule), w, h, rule)
  {
    ScanFromScanned(g0, g0, 0, w, h, rule);
    var g1 := Scan(g0, w, h, rule);
    forall x, y | InBounds(x, y, w, h) ensures Before(x, y, w, 0) {
    }
  }

  /** A pixel either stays as it was or, when it was not white, turns white. */
  predicate Whitens(before: Rgb, after: Rgb)
  {
    after == before || (before != White && after == White)
  }

  /** A rule that only ever clears a non-white pixel to white. */
  ghost predicate Whitening(rule: (Grid, int, int) -> Rgb, w: int, h: int)
  {
    forall g, x, y :: IsGrid(g, w, h) && InBounds(x, y, w, h) ==> Whitens(g[x][y], rule(g, x, y))
  }

  /** A scan with a whitening rule changes nothing but non-white pixels, and those only to white. */
  lemma {:induction false} ScanWhitens(g0: Grid, w: int, h: int, rule: (Grid, int, int) -> Rgb)
    requires IsGrid(g0, w, h) && 0 <= h && Whitening(rule, w, h)
    ensures forall x, y :: InBounds(x, y, w, h) ==> Whitens(g0[x][y], Scan(g0, w, h, rule)[x][y])
  {
    var g1 := Scan(g0, w, h, rule);
    ScanVisitsEach(g0, w, h, rule);
    forall x, y | InBounds(x, y, w, h) ensures Whitens(g0[x][y], g1[x][y]) {
      var v := View(g0, g1, x, y);
      assert v[x][y] == g0[x][y];
      assert Whitens(v[x][y], rule(v, x, y));
    }
  }

  /** Whitening twice is whitening: the passes of a program compose. */
  lemma WhitensTransitive(a: Rgb, b: Rgb, c: Rgb)
    requires Whitens(a, b) && Whitens(b, c)
    ensures Whitens(a, c)
  {
  }

  /** The `draw.Image` a cleanup program loads, bounds starting at (0, 0) as PNG decoding gives. */
  class Image {
    const width: int
    const height: int
    var grid: Grid

    ghost predicate Valid()
      reads this
    {
      0 <= width && 0 <= height && IsGrid(grid, width, height)
    }

    constructor (g: Grid, width: int, height: int)
      requires 0 <= width && 0 <= height && IsGrid(g, width, height)
      ensures Valid() && this.width == width && this.height == height && grid == g
    {
      this.width := width;
      this.height := height;
      grid := g;
    }

    /** `img.At(x, y).RGBA()` for a pixel of the canvas. */
    function At(x: int, y: int): Rgb
      requires Valid() && InBounds(x, y, width, height)
      reads this
    {
      grid[x][y]
    }

    /** `img.Set(x, y, c)`: only that pixel changes. */
    method Set(x: int, y: int, c: Rgb)
      requires Valid() && InBounds(x, y, width, height)
      modifies this
      ensures Valid()
      ensures grid == old(grid)[x := old(grid)[x][y := c]]
    {
      grid := grid[x := grid[x][y := c]];
    }
  }
}
