/**
 * The 11-byte pixel event of the live socket: big-endian x (bytes 0-3),
 * big-endian y (bytes 4-7), then the colour bytes (8-10).
 */
module PixelWire {
  import opened Common
  import opened BigEndian

  const EventSize: nat := 11

  /** A decoded event; `color` is whatever follows byte 8 (`b.slice(8)`). */
  datatype PixelEvent = PixelEvent(x: int, y: int, color: seq<Byte>)

  /** An event a sender can produce: coordinates in uint32 range and an RGB colour. */
  predicate Canonical(e: PixelEvent)
  {
    0 <= e.x < Two32 && 0 <= e.y < Two32 && |e.color| == 3
  }

  /**
   * The buffer the client sends for (x, y, color): coordinates through
   * `setUint32`, then color[0..2]; a colour byte the colour lacks stays 0.
   */
  function EncodeEvent(x: int, y: int, color: seq<Byte>): (r: seq<Byte>)
  {
    Uint32Bytes(x) + Uint32Bytes(y) + [ByteAt(color, 0), ByteAt(color, 1), ByteAt(color, 2)]
  }

  /**
   * The client's decode of an incoming message: getUint32 at 0 and 4 (a
   * RangeError, here None, when fewer than 8 bytes arrived) and the rest as colour.
   */
  function DecodeEvent(b: seq<Byte>): (r: Option<PixelEvent>)
  {
    if |b| < 8 then None else Some(PixelEvent(ReadUint32(b, 0), ReadUint32(b, 4), b[8..]))
  }

  /** The layout of an encoded event, byte by byte. */
  lemma EncodeLayout(x: int, y: int, color: seq<Byte>)
    ensures |EncodeEvent(x, y, color)| == EventSize
    ensures EncodeEvent(x, y, color)[0..4] == Uint32Bytes(x)
    ensures EncodeEvent(x, y, color)[4..8] == Uint32Bytes(y)
    ensures forall i :: 0 <= i < 3 ==> EncodeEvent(x, y, color)[8 + i] == ByteAt(color, i)
  {
    var r := EncodeEvent(x, y, color);
    assert r[0..4] == Uint32Bytes(x);
    assert r[4..8] == Uint32Bytes(y);
  }

  /** Decoding what the client encodes gives x and y modulo 2^32 and three colour bytes. */
  lemma DecodeEncode(x: int, y: int, color: seq<Byte>)
    ensures DecodeEvent(EncodeEvent(x, y, color))
         == Some(PixelEvent(x % Two32, y % Two32, [ByteAt(color, 0), ByteAt(color, 1), ByteAt(color, 2)]))
  {
    var b := EncodeEvent(x, y, color);
    ReadWrite(x);
    ReadWrite(y);
    assert b == Uint32Bytes(x) + (Uint32Bytes(y) + b[8..]);
    ReadPastPrefix(Uint32Bytes(x), Uint32Bytes(y) + b[8..], 0);
    assert (Uint32Bytes(y) + b[8..])[0..4] == Uint32Bytes(y);
    assert ReadUint32(Uint32Bytes(y) + b[8..], 0) == ReadUint32(Uint32Bytes(y), 0);
  }

  /** For a canonical event the round trip is exact. */
  lemma RoundTrip(e: PixelEvent)
    requires Canonical(e)
    ensures DecodeEvent(EncodeEvent(e.x, e.y, e.color)) == Some(e)
  {
    DecodeEncode(e.x, e.y, e.color);
    assert [ByteAt(e.color, 0), ByteAt(e.color, 1), ByteAt(e.color, 2)] == e.color;
  }

  /** Every 11-byte message is the encoding of what it decodes to. */
  lemma EncodeDecode(b: seq<Byte>)
    requires |b| == EventSize
    ensures DecodeEvent(b).Some?
    ensures EncodeEvent(DecodeEvent(b).value.x, DecodeEvent(b).value.y, DecodeEvent(b).value.color) == b
  {
    WriteRead(b, 0);
    WriteRead(b, 4);
    assert b == b[0..4] + b[4..8] + [b[8], b[9], b[10]];
  }

  /**
   * Fills a fresh Uint8Array(11) as `setPixel` and `put` do: putUint32 at 0 and 4,
   * then `b[8 + i] = color[i]` for i < 3.
   */
  method BuildEvent(x: int, y: int, color: seq<Byte>) returns (b: seq<Byte>)
    ensures b == EncodeEvent(x, y, color)
  {
    var buf := new Byte[EventSize];
    var xs, ys := Uint32Bytes(x), Uint32Bytes(y);
    buf[0], buf[1], buf[2], buf[3] := xs[0], xs[1], xs[2], xs[3];
    buf[4], buf[5], buf[6], buf[7] := ys[0], ys[1], ys[2], ys[3];
    for i := 0 to 3
      invariant buf[..8] == xs + ys
      invariant forall j :: 0 <= j < i ==> buf[8 + j] == ByteAt(color, j)
    {
      buf[8 + i] := ByteAt(color, i);
    }
    b := buf[..];
    assert b == buf[..8] + [buf[8], buf[9], buf[10]];
  }
}
