/** Types and facts shared by the client and the server models. */
module Common {

  datatype Option<T> = None | Some(value: T)

  /** WebSocket.readyState values. */
  const WsConnecting: int := 0
  const WsOpen: int := 1
  const WsClosing: int := 2

  /** One octet of a Uint8Array or a Go []byte. */
  type Byte = b: int | 0 <= b < 256

  /** A point of the canvas, or a real-valued position on the screen. */
  datatype Point = Point(x: real, y: real)

  /**
   * The rectangle [0, width) x [0, height): Go's positionOk, dimsOk, posOk and
   * the bounds test of setPixel all have this shape.
   */
  predicate InBounds(x: int, y: int, width: int, height: int)
  {
    0 <= x < width && 0 <= y < height
  }

  /** Row-major offset of pixel (x, y) in a raster `width` pixels wide. */
  function Offset(x: int, y: int, width: int): int
  {
    width * y + x
  }

  /** Every in-bounds pixel has an offset inside the raster. */
  lemma OffsetInRange(x: int, y: int, width: int, height: int)
    requires InBounds(x, y, width, height)
    ensures 0 <= Offset(x, y, width) < width * height
  {
    assert width * y + x < width * y + width == width * (y + 1);
    MulMonotone(width, y + 1, height);
    MulMonotone(width, 0, y);
  }

  /** Distinct in-bounds pixels have distinct offsets. */
  lemma OffsetInjective(x: int, y: int, x': int, y': int, width: int, height: int)
    requires InBounds(x, y, width, height) && InBounds(x', y', width, height)
    requires Offset(x, y, width) == Offset(x', y', width)
    ensures x == x' && y == y'
  {
    if y < y' {
      assert width * (y + 1) == width * y + width;
      MulMonotone(width, y + 1, y');
      assert false;
    } else if y' < y {
      assert width * (y' + 1) == width * y' + width;
      MulMonotone(width, y' + 1, y);
      assert false;
    }
  }

  lemma MulMonotone(a: int, b: int, c: int)
    requires 0 <= a && b <= c
    ensures a * b <= a * c
  {
    assert a * c - a * b == a * (c - b);
  }

  /** Element i of a typed array built from `s`, where a missing element reads as 0. */
  function ByteAt(s: seq<Byte>, i: nat): Byte
  {
    if i < |s| then s[i] else 0
  }
}
