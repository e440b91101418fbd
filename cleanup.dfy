/**
 * The three in-place passes of cmd/cleanup/cleanup.go. The first clears every
 * non-white pixel that has no neighbour on the canvas close to it in colour; the
 * next two clear every non-white pixel with more than six of its eight places
 * white or off the canvas. `posOk` is `InBounds`. The `-tolerance` flag is
 * parsed but never read, so it has no counterpart here.
 */
module Cleanup {
  import opened Common
  import opened BigEndian
  import opened CleanImage

  /** `searchX` and `searchY`: the offsets of the eight neighbours, counter-clockwise from the right. */
  const SearchX: seq<int> := [1, 1, 0, -1, -1, -1, 0, 1]
  const SearchY: seq<int> := [0, 1, 1, 1, 0, -1, -1, -1]

  /** A neighbour is close in colour when `difference` is below this. */
  const SimilarLimit: int := 30000
  /** The later passes clear a pixel with more than this many white places around it. */
  const CrowdLimit: int := 6

  /** The two tables name each of the eight places around a pixel once, and nothing else. */
  lemma SearchOffsets()
    ensures |SearchX| == |SearchY| == 8
    ensures forall i, j :: 0 <= i < j < 8 ==> (SearchX[i], SearchY[i]) != (SearchX[j], SearchY[j])
    ensures (set i | 0 <= i < 8 :: (SearchX[i], SearchY[i]))
         == (set dx: int, dy: int | -1 <= dx <= 1 && -1 <= dy <= 1 && (dx != 0 || dy != 0) :: (dx, dy))
  {
    var tables := set i | 0 <= i < 8 :: (SearchX[i], SearchY[i]);
    var ring := set dx: int, dy: int | -1 <= dx <= 1 && -1 <= dy <= 1 && (dx != 0 || dy != 0) :: (dx, dy);
    assert tables == {(1, 0), (1, 1), (0, 1), (-1, 1), (-1, 0), (-1, -1), (0, -1), (1, -1)} by {
      assert (SearchX[0], SearchY[0]) in tables;
      assert (SearchX[1], SearchY[1]) in tables;
      assert (SearchX[2], SearchY[2]) in tables;
      assert (SearchX[3], SearchY[3]) in tables;
      assert (SearchX[4], SearchY[4]) in tables;
      assert (SearchX[5], SearchY[5]) in tables;
      assert (SearchX[6], SearchY[6]) in tables;
      assert (SearchX[7], SearchY[7]) in tables;
    }
    forall d | d in ring ensures d in tables {
      var (dx, dy) := d;
      assert dx == -1 || dx == 0 || dx == 1;
      assert dy == -1 || dy == 0 || dy == 1;
    }
  }

  /** `isWhite`: 1 exactly for white. */
  function IsWhite(c: Rgb): (n: int)
    ensures n == 0 || n == 1
    ensures n == 1 <==> c == White
  {
    if c.r == 0xffff && c.g == 0xffff && c.b == 0xffff then 1 else 0
  }

  /** Subtraction of two `uint32` channels, which wraps around modulo 2^32. */
  function Wrap(d: int): (r: int)
    ensures 0 <= r < Two32
    ensures 0 <= d < Two32 ==> r == d
    ensures -Two32 <= d < 0 ==> r == Two32 + d
  {
    d % Two32
  }

  function Max(a: int, b: int): int
  {
    if a < b then b else a
  }

  function Abs(d: int): int
  {
    if d < 0 then -d else d
  }

  /**
   * `difference` as written: the largest channel of `c - c2` in `uint32`
   * arithmetic, where a channel of c below that of c2 wraps to near 2^32
   * (`math.Abs` of the converted result has nothing to do).
   */
  function DifferenceAsWritten(c: Rgb, c2: Rgb): (d: int)
    ensures 0 <= d < Two32
    ensures d == 0 <==> c == c2
  {
    Max(Max(Wrap(c.r - c2.r), Wrap(c.g - c2.g)), Wrap(c.b - c2.b))
  }

  /** One channel as written: close means not below, and by less than the limit. */
  lemma ChannelAsWritten(a: Channel, b: Channel)
    ensures Wrap(a - b) < SimilarLimit <==> b <= a < b + SimilarLimit
  {
  }

  /**
   * As written, c2 is close to c only when every channel of c2 is at or below
   * that of c, by less than 30000: the test is not symmetric.
   */
  lemma SimilarAsWritten(c: Rgb, c2: Rgb)
    ensures DifferenceAsWritten(c, c2) < SimilarLimit <==>
              c2.r <= c.r < c2.r + SimilarLimit && c2.g <= c.g < c2.g + SimilarLimit && c2.b <= c.b < c2.b + SimilarLimit
  {
    ChannelAsWritten(c.r, c2.r);
    ChannelAsWritten(c.g, c2.g);
    ChannelAsWritten(c.b, c2.b);
  }

  /** Black and the grey one step above it: close one way round, as far apart as can be the other. */
  lemma DifferenceNotSymmetric()
    ensures DifferenceAsWritten(Rgb(1, 1, 1), Rgb(0, 0, 0)) == 1
    ensures DifferenceAsWritten(Rgb(0, 0, 0), Rgb(1, 1, 1)) == Two32 - 1
  {
  }

  /** `difference` as evidently intended: the largest absolute channel difference. */
  function Difference(c: Rgb, c2: Rgb): (d: int)
    ensures 0 <= d < 0x1_0000
    ensures d == 0 <==> c == c2
  {
    Max(Max(Abs(c.r - c2.r), Abs(c.g - c2.g)), Abs(c.b - c2.b))
  }

  /** The corrected difference does not depend on the order of its arguments. */
  lemma DifferenceSymmetric(c: Rgb, c2: Rgb)
    ensures Difference(c, c2) == Difference(c2, c)
  {
  }

  /** Corrected, two colours are close when every channel is within 30000, either way. */
  lemma SimilarCorrected(c: Rgb, c2: Rgb)
    ensures Difference(c, c2) < SimilarLimit <==>
              Abs(c.r - c2.r) < SimilarLimit && Abs(c.g - c2.g) < SimilarLimit && Abs(c.b - c2.b) < SimilarLimit
  {
  }

  /** The two agree whenever no channel of c2 exceeds that of c. */
  lemma DifferencesAgree(c: Rgb, c2: Rgb)
    requires c2.r <= c.r && c2.g <= c.g && c2.b <= c.b
    ensures DifferenceAsWritten(c, c2) == Difference(c, c2)
  {
  }

  /** The colour test of the first pass, with `difference` as written (`wrapping`) or corrected. */
  function Similar(c: Rgb, c2: Rgb, wrapping: bool): bool
  {
    (if wrapping then DifferenceAsWritten(c, c2) else Difference(c, c2)) < SimilarLimit
  }

  /** Some neighbour of (x, y) on the canvas is close in colour to c. */
  predicate HasSimilarNeighbour(g: Grid, x: int, y: int, w: int, h: int, c: Rgb, wrapping: bool)
    requires IsGrid(g, w, h)
  {
    exists i :: 0 <= i < 8 && InBounds(x + SearchX[i], y + SearchY[i], w, h) &&
                Similar(c, g[x + SearchX[i]][y + SearchY[i]], wrapping)
  }

  /** The first pass's visit of (x, y): a non-white pixel with no close neighbour becomes white. */
  function Isolated(g: Grid, x: int, y: int, w: int, h: int, wrapping: bool): Rgb
    requires IsGrid(g, w, h) && InBounds(x, y, w, h)
  {
    if IsWhite(g[x][y]) == 0 && !HasSimilarNeighbour(g, x, y, w, h, g[x][y], wrapping) then White else g[x][y]
  }

  /** The number of the first k places around (x, y) that are white or off the canvas. */
  function CrowdCount(g: Grid, x: int, y: int, w: int, h: int, k: int): (n: int)
    requires IsGrid(g, w, h) && 0 <= k <= 8
    ensures 0 <= n <= k
  {
    if k == 0 then 0
    else
      var nx, ny := x + SearchX[k - 1], y + SearchY[k - 1];
      CrowdCount(g, x, y, w, h, k - 1) + if InBounds(nx, ny, w, h) then IsWhite(g[nx][ny]) else 1
  }

  /** A later pass's visit of (x, y): a non-white pixel with more than six white places around becomes white. */
  function Crowded(g: Grid, x: int, y: int, w: int, h: int): Rgb
    requires IsGrid(g, w, h) && InBounds(x, y, w, h)
  {
    if IsWhite(g[x][y]) == 0 && CrowdCount(g, x, y, w, h, 8) > CrowdLimit then White else g[x][y]
  }

  /** The rules of the two kinds of pass, on a w x h canvas. */
  function IsolatedFilter(w: int, h: int, wrapping: bool): (Grid, int, int) -> Rgb
  {
    (g: Grid, x: int, y: int) => if IsGrid(g, w, h) && InBounds(x, y, w, h) then Isolated(g, x, y, w, h, wrapping) else White
  }

  function CrowdedFilter(w: int, h: int): (Grid, int, int) -> Rgb
  {
    (g: Grid, x: int, y: int) => if IsGrid(g, w, h) && InBounds(x, y, w, h) then Crowded(g, x, y, w, h) else White
  }

  /** What the program computes: the first pass, then the second kind twice. */
  function Cleaned(g0: Grid, w: int, h: int, wrapping: bool): Grid
  {
    Scan(Scan(Scan(g0, w, h, IsolatedFilter(w, h, wrapping)), w, h, CrowdedFilter(w, h)), w, h, CrowdedFilter(w, h))
  }

  /** All three passes clear non-white pixels to white and change nothing else. */
  lemma {:induction false} CleanedOnlyClears(g0: Grid, w: int, h: int, wrapping: bool)
    requires IsGrid(g0, w, h) && 0 <= h
    ensures IsGrid(Cleaned(g0, w, h, wrapping), w, h)
    ensures forall x, y :: InBounds(x, y, w, h) ==> Whitens(g0[x][y], Cleaned(g0, w, h, wrapping)[x][y])
  {
    var g1 := Scan(g0, w, h, IsolatedFilter(w, h, wrapping));
    var g2 := Scan(g1, w, h, CrowdedFilter(w, h));
    var g3 := Scan(g2, w, h, CrowdedFilter(w, h));
    assert Whitening(IsolatedFilter(w, h, wrapping), w, h);
    assert Whitening(CrowdedFilter(w, h), w, h);
    ScanWhitens(g0, w, h, IsolatedFilter(w, h, wrapping));
    ScanWhitens(g1, w, h, CrowdedFilter(w, h));
    ScanWhitens(g2, w, h, CrowdedFilter(w, h));
    forall x, y | InBounds(x, y, w, h) ensures Whitens(g0[x][y], g3[x][y]) {
      WhitensTransitive(g0[x][y], g1[x][y], g2[x][y]);
      WhitensTransitive(g0[x][y], g2[x][y], g3[x][y]);
    }
  }

  /** On a canvas of one pixel there are no neighbours: the first pass clears any colour. */
  lemma {:induction false} LonePixelIsolated(g: Grid, wrapping: bool)
    requires IsGrid(g, 1, 1) && g[0][0] != White
    ensures Isolated(g, 0, 0, 1, 1, wrapping) == White
  {
    forall i | 0 <= i < 8 ensures !InBounds(0 + SearchX[i], 0 + SearchY[i], 1, 1) {
      assert i == 0 || i == 1 || i == 2 || i == 3 || i == 4 || i == 5 || i == 6 || i == 7;
    }
  }

  /**
   * A corner has five places off the canvas, which the later passes count as
   * white: a non-white corner pixel is cleared once two of its three neighbours
   * are white.
   */
  lemma {:induction false} CornerCrowded(g: Grid, w: int, h: int)
    requires IsGrid(g, w, h) && 2 <= w && 2 <= h && g[0][0] != White
    ensures Crowded(g, 0, 0, w, h) == White <==> IsWhite(g[1][0]) + IsWhite(g[1][1]) + IsWhite(g[0][1]) >= 2
  {
    assert CrowdCount(g, 0, 0, w, h, 1) == IsWhite(g[1][0]);
    assert CrowdCount(g, 0, 0, w, h, 2) == IsWhite(g[1][0]) + IsWhite(g[1][1]);
    assert CrowdCount(g, 0, 0, w, h, 3) == IsWhite(g[1][0]) + IsWhite(g[1][1]) + IsWhite(g[0][1]);
    assert CrowdCount(g, 0, 0, w, h, 4) == CrowdCount(g, 0, 0, w, h, 3) + 1;
    assert CrowdCount(g, 0, 0, w, h, 5) == CrowdCount(g, 0, 0, w, h, 3) + 2;
    assert CrowdCount(g, 0, 0, w, h, 6) == CrowdCount(g, 0, 0, w, h, 3) + 3;
    assert CrowdCount(g, 0, 0, w, h, 7) == CrowdCount(g, 0, 0, w, h, 3) + 4;
    assert CrowdCount(g, 0, 0, w, h, 8) == CrowdCount(g, 0, 0, w, h, 3) + 5;
  }

  /**
   * The canvas black above the grey one step lighter, one pixel wide and two
   * high. As written, black finds its only neighbour not close and is cleared,
   * and then the grey finds white beside it and is cleared too: the first pass
   * empties the canvas. With the corrected difference both pixels stay.
   */
  lemma {:induction false} DarkPairErased()
    ensures Scan([[Rgb(0, 0, 0), Rgb(1, 1, 1)]], 1, 2, IsolatedFilter(1, 2, true)) == [[White, White]]
    ensures Scan([[Rgb(0, 0, 0), Rgb(1, 1, 1)]], 1, 2, IsolatedFilter(1, 2, false)) == [[Rgb(0, 0, 0), Rgb(1, 1, 1)]]
  {
    var black, grey := Rgb(0, 0, 0), Rgb(1, 1, 1);
    var g := [[black, grey]];
    DifferenceNotSymmetric();
    assert DifferenceAsWritten(grey, White) >= SimilarLimit by {
      SimilarAsWritten(grey, White);
    }
    var fw := IsolatedFilter(1, 2, true);
    OnlyNeighbourBelow(g, true);
    assert fw(g, 0, 0) == Isolated(g, 0, 0, 1, 2, true) == White;
    var g1 := Visit(g, 0, 0, fw);
    assert g[0][0 := White] == [White, grey];
    assert g1 == [[White, grey]];
    OnlyNeighbourAbove(g1, true);
    assert fw(g1, 0, 1) == Isolated(g1, 0, 1, 1, 2, true) == White;
    assert g1[0][1 := White] == [White, White];
    assert Visit(g1, 0, 1, fw) == [[White, White]];
    assert Scan(g, 1, 2, fw) == ScanColumn(g, 0, 0, 2, fw) == Visit(g1, 0, 1, fw);

    var fc := IsolatedFilter(1, 2, false);
    assert Difference(black, grey) == 1 && Difference(grey, black) == 1;
    OnlyNeighbourBelow(g, false);
    OnlyNeighbourAbove(g, false);
    assert fc(g, 0, 0) == Isolated(g, 0, 0, 1, 2, false) == black;
    assert fc(g, 0, 1) == Isolated(g, 0, 1, 1, 2, false) == grey;
    assert g[0][0 := black] == g[0] && g[0][1 := grey] == g[0];
    assert g[0 := g[0]] == g;
    assert Visit(g, 0, 0, fc) == g;
    assert Visit(g, 0, 1, fc) == g;
    assert Scan(g, 1, 2, fc) == ScanColumn(g, 0, 0, 2, fc) == Visit(Visit(g, 0, 0, fc), 0, 1, fc);
  }

  /** On a 1 x 2 canvas the one neighbour of the top pixel is the one below it. */
  lemma {:induction false} OnlyNeighbourBelow(g: Grid, wrapping: bool)
    requires IsGrid(g, 1, 2)
    ensures HasSimilarNeighbour(g, 0, 0, 1, 2, g[0][0], wrapping) <==> Similar(g[0][0], g[0][1], wrapping)
  {
    SearchOffsets();
    assert SearchX[2] == 0 && SearchY[2] == 1;
    if HasSimilarNeighbour(g, 0, 0, 1, 2, g[0][0], wrapping) {
      var i :| 0 <= i < 8 && InBounds(SearchX[i], SearchY[i], 1, 2) && Similar(g[0][0], g[SearchX[i]][SearchY[i]], wrapping);
      assert (SearchX[i], SearchY[i]) in set k | 0 <= k < 8 :: (SearchX[k], SearchY[k]);
    }
  }

  /** On a 1 x 2 canvas the one neighbour of the bottom pixel is the one above it. */
  lemma {:induction false} OnlyNeighbourAbove(g: Grid, wrapping: bool)
    requires IsGrid(g, 1, 2)
    ensures HasSimilarNeighbour(g, 0, 1, 1, 2, g[0][1], wrapping) <==> Similar(g[0][1], g[0][0], wrapping)
  {
    SearchOffsets();
    assert SearchX[6] == 0 && SearchY[6] == -1;
    if HasSimilarNeighbour(g, 0, 1, 1, 2, g[0][1], wrapping) {
      var i :| 0 <= i < 8 && InBounds(SearchX[i], 1 + SearchY[i], 1, 2) && Similar(g[0][1], g[SearchX[i]][1 + SearchY[i]], wrapping);
      assert (SearchX[i], SearchY[i]) in set k | 0 <= k < 8 :: (SearchX[k], SearchY[k]);
    }
  }

  /** The inner loop of the first pass: look for a close neighbour, stop at the first. */
  method FindSimilar(img: Image, x: int, y: int, c: Rgb, wrapping: bool) returns (ok: bool)
    requires img.Valid() && InBounds(x, y, img.width, img.height)
    ensures ok <==> HasSimilarNeighbour(img.grid, x, y, img.width, img.height, c, wrapping)
  {
    ok := false;
    for i := 0 to |SearchX|
      invariant forall k :: 0 <= k < i ==>
                  !(InBounds(x + SearchX[k], y + SearchY[k], img.width, img.height) &&
                    Similar(c, img.grid[x + SearchX[k]][y + SearchY[k]], wrapping))
    {
      if InBounds(x + SearchX[i], y + SearchY[i], img.width, img.height) {
        var c2 := img.At(x + SearchX[i], y + SearchY[i]);
        var d := if wrapping then DifferenceAsWritten(c, c2) else Difference(c, c2);
        if d < SimilarLimit {
          ok := true;
          break;
        }
      }
    }
  }

  /** The inner loop of a later pass: count the places around (x, y) that are white or off the canvas. */
  method CountCrowd(img: Image, x: int, y: int) returns (white: int)
    requires img.Valid()
    ensures white == CrowdCount(img.grid, x, y, img.width, img.height, 8)
  {
    white := 0;
    for i := 0 to |SearchX|
      invariant white == CrowdCount(img.grid, x, y, img.width, img.height, i)
    {
      if InBounds(x + SearchX[i], y + SearchY[i], img.width, img.height) {
        var c2 := img.At(x + SearchX[i], y + SearchY[i]);
        white := white + IsWhite(c2);
      } else {
        white := white + 1;
      }
    }
  }

  /** The body of the first pass's loops: the visit of (x, y). */
  method VisitIsolated(img: Image, x: int, y: int, wrapping: bool)
    requires img.Valid() && InBounds(x, y, img.width, img.height)
    modifies img
    ensures img.Valid()
    ensures img.grid == Visit(old(img.grid), x, y, IsolatedFilter(img.width, img.height, wrapping))
  {
    ghost var g := img.grid;
    var c := img.At(x, y);
    if IsWhite(c) == 0 {
      var ok := FindSimilar(img, x, y, c, wrapping);
      if !ok {
        img.Set(x, y, White);
      }
    }
    assert g[x][y := g[x][y]] == g[x];
    assert g[x := g[x]] == g;
  }

  /** The body of a later pass's loops: the visit of (x, y). */
  method VisitCrowded(img: Image, x: int, y: int)
    requires img.Valid() && InBounds(x, y, img.width, img.height)
    modifies img
    ensures img.Valid()
    ensures img.grid == Visit(old(img.grid), x, y, CrowdedFilter(img.width, img.height))
  {
    ghost var g := img.grid;
    var c := img.At(x, y);
    if IsWhite(c) == 0 {
      var white := CountCrowd(img, x, y);
      if white > CrowdLimit {
        img.Set(x, y, White);
      }
    }
    assert g[x][y := g[x][y]] == g[x];
    assert g[x := g[x]] == g;
  }

  /** The first pass, in place, x outer and y inner. */
  method ClearIsolated(img: Image, wrapping: bool)
    requires img.Valid()
    modifies img
    ensures img.Valid()
    ensures img.grid == Scan(old(img.grid), img.width, img.height, IsolatedFilter(img.width, img.height, wrapping))
  {
    var width, height := img.width, img.height;
    ghost var f := IsolatedFilter(width, height, wrapping);
    ghost var g0 := img.grid;
    for x := 0 to width
      invariant img.Valid()
      invariant ScanFrom(img.grid, x, width, height, f) == Scan(g0, width, height, f)
    {
      for y := 0 to height
        invariant img.Valid()
        invariant ScanFrom(ScanColumn(img.grid, x, y, height, f), x + 1, width, height, f) == Scan(g0, width, height, f)
      {
        VisitIsolated(img, x, y, wrapping);
      }
    }
  }

  /** One of the later passes, in place, x outer and y inner. */
  method ClearCrowded(img: Image)
    requires img.Valid()
    modifies img
    ensures img.Valid()
    ensures img.grid == Scan(old(img.grid), img.width, img.height, CrowdedFilter(img.width, img.height))
  {
    var width, height := img.width, img.height;
    ghost var f := CrowdedFilter(width, height);
    ghost var g0 := img.grid;
    for x := 0 to width
      invariant img.Valid()
      invariant ScanFrom(img.grid, x, width, height, f) == Scan(g0, width, height, f)
    {
      for y := 0 to height
        invariant img.Valid()
        invariant ScanFrom(ScanColumn(img.grid, x, y, height, f), x + 1, width, height, f) == Scan(g0, width, height, f)
      {
        VisitCrowded(img, x, y);
      }
    }
  }

  /** `main`'s passes as written: the first with the wrapping difference. */
  method CleanAsWritten(img: Image)
    requires img.Valid()
    modifies img
    ensures img.Valid()
    ensures img.grid == Cleaned(old(img.grid), img.width, img.height, true)
  {
    ClearIsolated(img, true);
    for i := 0 to 2
      invariant img.Valid()
      invariant img.grid == if i == 0 then Scan(old(img.grid), img.width, img.height, IsolatedFilter(img.width, img.height, true))
                            else if i == 1 then Scan(Scan(old(img.grid), img.width, img.height, IsolatedFilter(img.width, img.height, true)), img.width, img.height, CrowdedFilter(img.width, img.height))
                            else Cleaned(old(img.grid), img.width, img.height, true)
    {
      ClearCrowded(img);
    }
  }

  /** `main`'s passes with the corrected difference. */
  method Clean(img: Image)
    requires img.Valid()
    modifies img
    ensures img.Valid()
    ensures img.grid == Cleaned(old(img.grid), img.width, img.height, false)
  {
    ClearIsolated(img, false);
    ClearCrowded(img);
    ClearCrowded(img);
  }
}
