/**
 * The despeckle pass of cmd/cleanup/main.go: a non-white pixel with fewer than
 * three non-white places around it (a place off the canvas counts as non-white)
 * is set to white, in one in-place scan.
 */
module Despeckle {
  import opened Common
  import opened CleanImage

  /** `isWhite`: 1 for a white pixel of the canvas, 0 for any other pixel and off the canvas. */
  function IsWhite(x: int, y: int, w: int, h: int, g: Grid): (n: int)
    requires IsGrid(g, w, h)
    ensures n == 0 || n == 1
    ensures n == 1 <==> InBounds(x, y, w, h) && g[x][y] == White
  {
    if 0 <= x && x < w && 0 <= y && y < h then
      var c := g[x][y];
      if c.r == 0xffff && c.g == 0xffff && c.b == 0xffff then 1 else 0
    else 0
  }

  /** `count`: 8 less the white neighbours, in the order the program subtracts them. */
  function Count(g: Grid, x: int, y: int, w: int, h: int): (count: int)
    requires IsGrid(g, w, h)
    ensures 0 <= count <= 8
  {
    8 - IsWhite(x + 1, y + 0, w, h, g) - IsWhite(x + 1, y + 1, w, h, g)
      - IsWhite(x + 0, y + 1, w, h, g) - IsWhite(x - 1, y + 1, w, h, g)
      - IsWhite(x - 1, y + 0, w, h, g) - IsWhite(x - 1, y - 1, w, h, g)
      - IsWhite(x + 0, y - 1, w, h, g) - IsWhite(x + 1, y - 1, w, h, g)
  }

  /** The visit of (x, y): a non-white pixel with a count below 3 becomes white. */
  function Despeckled(g: Grid, x: int, y: int, w: int, h: int): Rgb
    requires IsGrid(g, w, h) && InBounds(x, y, w, h)
  {
    if IsWhite(x, y, w, h, g) == 0 && Count(g, x, y, w, h) < 3 then White else g[x][y]
  }

  /** The rule of the scan, on a w x h canvas. */
  function Filter(w: int, h: int): (Grid, int, int) -> Rgb
  {
    (g: Grid, x: int, y: int) => if IsGrid(g, w, h) && InBounds(x, y, w, h) then Despeckled(g, x, y, w, h) else White
  }

  /** White pixels are never touched and the only colour written is white. */
  lemma FilterWhitens(w: int, h: int)
    ensures Whitening(Filter(w, h), w, h)
  {
  }

  /**
   * A pixel on the border has at least three places off the canvas, which count
   * as non-white: its count never drops below 3 and it is never cleared.
   */
  lemma {:induction false} BorderKept(g: Grid, x: int, y: int, w: int, h: int)
    requires IsGrid(g, w, h) && InBounds(x, y, w, h)
    requires x == 0 || y == 0 || x == w - 1 || y == h - 1
    ensures Despeckled(g, x, y, w, h) == g[x][y]
  {
    if x == 0 {
      assert IsWhite(x - 1, y + 1, w, h, g) == 0 && IsWhite(x - 1, y, w, h, g) == 0 && IsWhite(x - 1, y - 1, w, h, g) == 0;
    } else if y == 0 {
      assert IsWhite(x - 1, y - 1, w, h, g) == 0 && IsWhite(x, y - 1, w, h, g) == 0 && IsWhite(x + 1, y - 1, w, h, g) == 0;
    } else if x == w - 1 {
      assert IsWhite(x + 1, y, w, h, g) == 0 && IsWhite(x + 1, y + 1, w, h, g) == 0 && IsWhite(x + 1, y - 1, w, h, g) == 0;
    } else {
      assert IsWhite(x + 1, y + 1, w, h, g) == 0 && IsWhite(x, y + 1, w, h, g) == 0 && IsWhite(x - 1, y + 1, w, h, g) == 0;
    }
  }

  /** An interior non-white pixel with six or more white neighbours is cleared. */
  lemma {:induction false} SpeckleCleared(g: Grid, x: int, y: int, w: int, h: int)
    requires IsGrid(g, w, h) && InBounds(x, y, w, h) && g[x][y] != White
    requires Count(g, x, y, w, h) <= 2
    ensures Despeckled(g, x, y, w, h) == White
  {
  }

  /** The whole pass: the border of the canvas comes through unchanged. */
  lemma {:induction false} ScanKeepsBorder(g0: Grid, w: int, h: int)
    requires IsGrid(g0, w, h) && 0 <= h
    ensures forall x, y :: InBounds(x, y, w, h) && (x == 0 || y == 0 || x == w - 1 || y == h - 1) ==>
              Scan(g0, w, h, Filter(w, h))[x][y] == g0[x][y]
  {
    var g1 := Scan(g0, w, h, Filter(w, h));
    ScanVisitsEach(g0, w, h, Filter(w, h));
    forall x, y | InBounds(x, y, w, h) && (x == 0 || y == 0 || x == w - 1 || y == h - 1)
      ensures g1[x][y] == g0[x][y]
    {
      var v := View(g0, g1, x, y);
      BorderKept(v, x, y, w, h);
      assert v[x][y] == g0[x][y];
    }
  }

  /** The whole pass only ever clears non-white pixels to white. */
  lemma {:induction false} ScanOnlyClears(g0: Grid, w: int, h: int)
    requires IsGrid(g0, w, h) && 0 <= h
    ensures forall x, y :: InBounds(x, y, w, h) ==> Whitens(g0[x][y], Scan(g0, w, h, Filter(w, h))[x][y])
  {
    FilterWhitens(w, h);
    ScanWhitens(g0, w, h, Filter(w, h));
  }

  /** The body of `main`'s loops: the visit of (x, y). */
  method VisitSpeckle(img: Image, x: int, y: int)
    requires img.Valid() && InBounds(x, y, img.width, img.height)
    modifies img
    ensures img.Valid()
    ensures img.grid == Visit(old(img.grid), x, y, Filter(img.width, img.height))
  {
    var width, height := img.width, img.height;
    ghost var g := img.grid;
    if IsWhite(x, y, width, height, img.grid) == 0 {
      var count := 8;
      count := count - IsWhite(x + 1, y + 0, width, height, img.grid);
      count := count - IsWhite(x + 1, y + 1, width, height, img.grid);
      count := count - IsWhite(x + 0, y + 1, width, height, img.grid);
      count := count - IsWhite(x - 1, y + 1, width, height, img.grid);
      count := count - IsWhite(x - 1, y + 0, width, height, img.grid);
      count := count - IsWhite(x - 1, y - 1, width, height, img.grid);
      count := count - IsWhite(x + 0, y - 1, width, height, img.grid);
      count := count - IsWhite(x + 1, y - 1, width, height, img.grid);
      if count < 3 {
        img.Set(x, y, White);
      }
    }
    assert g[x][y := g[x][y]] == g[x];
    assert g[x := g[x]] == g;
  }

  /** `main`'s loops: the pass, in place, x outer and y inner. */
  method Clean(img: Image)
    requires img.Valid()
    modifies img
    ensures img.Valid()
    ensures img.grid == Scan(old(img.grid), img.width, img.height, Filter(img.width, img.height))
  {
    var width, height := img.width, img.height;
    ghost var f := Filter(width, height);
    ghost var g0 := img.grid;
    for x := 0 to width
      invariant img.Valid()
      invariant ScanFrom(img.grid, x, width, height, f) == Scan(g0, width, height, f)
    {
      for y := 0 to height
        invariant img.Valid()
        invariant ScanFrom(ScanColumn(img.grid, x, y, height, f), x + 1, width, height, f) == Scan(g0, width, height, f)
      {
        VisitSpeckle(img, x, y);
      }
    }
  }
}
