/**
 * `rgbImage` of rgbimage.go: w*h pixels of four bytes (R, G, B, A) in a flat
 * slice. The constructor makes every pixel opaque black by setting every fourth
 * byte, from byte 3 on, to 0xFF.
 */
module RgbImage {
  import opened Common
  import opened Raster

  /** `At` on the bytes of an image w pixels wide. */
  function PixelOf(pixels: seq<Byte>, x: int, y: int, width: int): Rgba
    requires 0 <= PixelBase(x, y, width, 4) && PixelBase(x, y, width, 4) + 4 <= |pixels|
  {
    var pos := PixelBase(x, y, width, 4);
    Rgba(pixels[pos], pixels[pos + 1], pixels[pos + 2], pixels[pos + 3])
  }

  /** The bytes the constructor leaves: 0xFF at every index that is 3 modulo 4, 0 elsewhere. */
  predicate OpaqueBlack(pixels: seq<Byte>)
  {
    forall i :: 0 <= i < |pixels| ==> pixels[i] == if i % 4 == 3 then 0xFF else 0
  }

  /** Every in-bounds pixel of a fresh image is opaque black. */
  lemma FreshPixel(pixels: seq<Byte>, width: int, height: int, x: int, y: int)
    requires |pixels| == width * height * 4 && OpaqueBlack(pixels)
    requires InBounds(x, y, width, height)
    ensures 0 <= PixelBase(x, y, width, 4) && PixelBase(x, y, width, 4) + 4 <= |pixels| &&
            PixelOf(pixels, x, y, width) == Rgba(0, 0, 0, 0xFF)
  {
    PixelInBuffer(x, y, width, height, 4);
    var pos := PixelBase(x, y, width, 4);
    assert pos % 4 == 0;
    assert (pos + 1) % 4 == 1 && (pos + 2) % 4 == 2 && (pos + 3) % 4 == 3;
  }

  /** Between two alpha indices there is no other. */
  lemma NextAlpha(i: int, j: int)
    requires i % 4 == 3 && j % 4 == 3 && i <= j < i + 4
    ensures j == i
  {
    assert (j - i) % 4 == 0;
  }

  class RgbImage {
    const width: int
    const height: int
    /** `pixels`: w*h*4 bytes. */
    const pixels: array<Byte>

    predicate Valid()
      reads this
    {
      pixels.Length == width * height * 4
    }

    /** `newRGBAImage`: `make` panics on a negative length; then the alpha loop. */
    constructor (width: int, height: int)
      requires width * height >= 0
      ensures Valid() && this.width == width && this.height == height && fresh(pixels)
      ensures OpaqueBlack(pixels[..])
    {
      this.width, this.height := width, height;
      pixels := new Byte[width * height * 4](_ => 0);
      new;
      var i := 3;
      while i < pixels.Length
        invariant 3 <= i && i % 4 == 3
        invariant forall j :: 0 <= j < pixels.Length ==> pixels[j] == if j % 4 == 3 && j < i then 0xFF else 0
      {
        pixels[i] := 0xFF;
        forall j | 0 <= j < pixels.Length && j % 4 == 3 && i <= j < i + 4
          ensures j == i
        {
          NextAlpha(i, j);
        }
        i := i + 4;
      }
    }

    /** `Bounds`: the rectangle from (0, 0) to (w, h), whose points are the in-bounds pixels. */
    function Bounds(): (r: Rect)
      reads this
      ensures r.minX == 0 && r.minY == 0
      ensures forall x, y :: InRect(r, x, y) <==> InBounds(x, y, width, height)
    {
      Rect(0, 0, width, height)
    }

    /** `At`: the pixel's four bytes; Go panics outside the slice. */
    function At(x: int, y: int): (c: Rgba)
      reads this, pixels
      requires 0 <= PixelBase(x, y, width, 4) && PixelBase(x, y, width, 4) + 4 <= pixels.Length
      ensures c == PixelOf(pixels[..], x, y, width)
    {
      var pos := PixelBase(x, y, width, 4);
      Rgba(pixels[pos], pixels[pos + 1], pixels[pos + 2], pixels[pos + 3])
    }
  }
}
