/**
 * `placeImage` of placeimage.go: an RGB canvas of w*h pixels in a flat byte
 * slice, three bytes per pixel, read as opaque NRGBA. `Set` is Go's `copy` from
 * the pixel's first byte on, so a longer source runs on into the following
 * pixels and a shorter one leaves the rest of the pixel alone.
 */
module PlaceImage {
  import opened Common
  import opened Raster

  /** `At` on the bytes of a canvas w pixels wide. */
  function PixelOf(pixels: seq<Byte>, x: int, y: int, width: int): Rgba
    requires 0 <= PixelBase(x, y, width, 3) && PixelBase(x, y, width, 3) + 3 <= |pixels|
  {
    var pos := PixelBase(x, y, width, 3);
    Rgba(pixels[pos], pixels[pos + 1], pixels[pos + 2], 0xFF)
  }

  /**
   * Setting an in-bounds pixel to three bytes makes `At` return them, opaque, at
   * that pixel and leaves every other pixel as it was.
   */
  lemma SetThenAt(pixels: seq<Byte>, width: int, height: int, x: int, y: int, b: seq<Byte>, x': int, y': int)
    requires |pixels| == width * height * 3 && |b| == 3
    requires InBounds(x, y, width, height) && InBounds(x', y', width, height)
    ensures 0 <= PixelBase(x, y, width, 3) <= |pixels|
    ensures 0 <= PixelBase(x', y', width, 3) && PixelBase(x', y', width, 3) + 3 <= |pixels| &&
            PixelOf(CopyInto(pixels, PixelBase(x, y, width, 3), b), x', y', width)
         == if x' == x && y' == y then Rgba(b[0], b[1], b[2], 0xFF) else PixelOf(pixels, x', y', width)
  {
    PixelInBuffer(x, y, width, height, 3);
    PixelInBuffer(x', y', width, height, 3);
    if x' != x || y' != y {
      PixelRangesDisjoint(x, y, x', y', width, height, 3);
    }
  }

  /**
   * A source longer than three bytes runs on: six bytes set at (x, y) also set
   * the next pixel of the row to the last three.
   */
  lemma SetRunsOn(pixels: seq<Byte>, width: int, height: int, x: int, y: int, b: seq<Byte>)
    requires |pixels| == width * height * 3 && |b| == 6
    requires InBounds(x, y, width, height) && InBounds(x + 1, y, width, height)
    ensures 0 <= PixelBase(x, y, width, 3) <= |pixels|
    ensures 0 <= PixelBase(x + 1, y, width, 3) && PixelBase(x + 1, y, width, 3) + 3 <= |pixels| &&
            PixelOf(CopyInto(pixels, PixelBase(x, y, width, 3), b), x + 1, y, width) == Rgba(b[3], b[4], b[5], 0xFF)
  {
    PixelInBuffer(x, y, width, height, 3);
    PixelInBuffer(x + 1, y, width, height, 3);
    assert PixelBase(x + 1, y, width, 3) == PixelBase(x, y, width, 3) + 3;
  }

  class PlaceImage {
    const width: int
    const height: int
    /** `pixels`: w*h*3 bytes. */
    const pixels: array<Byte>

    predicate Valid()
      reads this
    {
      pixels.Length == width * height * 3
    }

    /** `newPlaceImage`: `make` panics on a negative length; the bytes start at zero. */
    constructor (width: int, height: int)
      requires width * height >= 0
      ensures Valid() && this.width == width && this.height == height && fresh(pixels)
      ensures forall i :: 0 <= i < pixels.Length ==> pixels[i] == 0
    {
      this.width, this.height := width, height;
      pixels := new Byte[width * height * 3](_ => 0);
    }

    /** `Bounds`: the rectangle from (0, 0) to (w, h), whose points are the in-bounds pixels. */
    function Bounds(): (r: Rect)
      reads this
      ensures r.minX == 0 && r.minY == 0
      ensures forall x, y :: InRect(r, x, y) <==> InBounds(x, y, width, height)
    {
      Rect(0, 0, width, height)
    }

    /** `At`: the pixel's three bytes, opaque; Go panics outside the slice. */
    function At(x: int, y: int): (c: Rgba)
      reads this, pixels
      requires 0 <= PixelBase(x, y, width, 3) && PixelBase(x, y, width, 3) + 3 <= pixels.Length
      ensures c == PixelOf(pixels[..], x, y, width) && c.a == 0xFF
    {
      var pos := PixelBase(x, y, width, 3);
      Rgba(pixels[pos], pixels[pos + 1], pixels[pos + 2], 0xFF)
    }

    /** `Set`: copy b in from the pixel's first byte; Go panics when that is off the slice. */
    method Set(x: int, y: int, b: seq<Byte>)
      requires 0 <= PixelBase(x, y, width, 3) <= pixels.Length
      modifies pixels
      ensures pixels[..] == CopyInto(old(pixels[..]), PixelBase(x, y, width, 3), b)
    {
      Copy(pixels, PixelBase(x, y, width, 3), b);
    }
  }
}
