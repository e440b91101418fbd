/**
 * Flat pixel buffers, `k` bytes per pixel in row-major order, as placeimage.go
 * (k = 3) and rgbimage.go (k = 4) lay them out: pixel (x, y) starts at byte
 * (w*y + x)*k.
 */
module Raster {
  import opened Common

  /** `color.NRGBA`. */
  datatype Rgba = Rgba(r: Byte, g: Byte, b: Byte, a: Byte)

  /** `image.Rectangle`. */
  datatype Rect = Rect(minX: int, minY: int, maxX: int, maxY: int)

  /** `image.Point.In(r)`: half-open on both axes. */
  predicate InRect(r: Rect, x: int, y: int)
  {
    r.minX <= x < r.maxX && r.minY <= y < r.maxY
  }

  /** The first byte of pixel (x, y). */
  function PixelBase(x: int, y: int, width: int, k: nat): int
  {
    Offset(x, y, width) * k
  }

  /** The k bytes of an in-bounds pixel lie inside a buffer of w*h*k bytes. */
  lemma PixelInBuffer(x: int, y: int, width: int, height: int, k: nat)
    requires InBounds(x, y, width, height)
    ensures 0 <= PixelBase(x, y, width, k) && PixelBase(x, y, width, k) + k <= width * height * k
  {
    OffsetInRange(x, y, width, height);
    var o := Offset(x, y, width);
    MulMonotone(k, o + 1, width * height);
    assert (o + 1) * k == o * k + k;
  }

  /** Distinct in-bounds pixels own disjoint k-byte ranges. */
  lemma PixelRangesDisjoint(x: int, y: int, x': int, y': int, width: int, height: int, k: nat)
    requires InBounds(x, y, width, height) && InBounds(x', y', width, height)
    requires x != x' || y != y'
    ensures PixelBase(x, y, width, k) + k <= PixelBase(x', y', width, k)
         || PixelBase(x', y', width, k) + k <= PixelBase(x, y, width, k)
  {
    var o, o' := Offset(x, y, width), Offset(x', y', width);
    if o == o' {
      OffsetInjective(x, y, x', y', width, height);
    }
    if o < o' {
      MulMonotone(k, o + 1, o');
    } else {
      MulMonotone(k, o' + 1, o);
    }
    assert (o + 1) * k == o * k + k;
    assert (o' + 1) * k == o' * k + k;
  }

  /** `copy(dst[pos:], src)`: min(len(src), len(dst) - pos) bytes from pos on. */
  function CopyInto(dst: seq<Byte>, pos: nat, src: seq<Byte>): (r: seq<Byte>)
    requires pos <= |dst|
    ensures |r| == |dst|
    ensures forall i :: 0 <= i < |dst| ==> r[i] == if pos <= i < pos + |src| then src[i - pos] else dst[i]
  {
    var n := if |src| < |dst| - pos then |src| else |dst| - pos;
    dst[..pos] + src[..n] + dst[pos + n..]
  }

  /** Go's `copy(dst[pos:], src)` on a byte slice. */
  method Copy(dst: array<Byte>, pos: nat, src: seq<Byte>)
    requires pos <= dst.Length
    modifies dst
    ensures dst[..] == CopyInto(old(dst[..]), pos, src)
  {
    var n := if |src| < dst.Length - pos then |src| else dst.Length - pos;
    for k := 0 to n
      invariant forall i :: 0 <= i < dst.Length ==>
                  dst[i] == if pos <= i < pos + k then src[i - pos] else old(dst[i])
    {
      dst[pos + k] := src[k];
    }
  }
}
