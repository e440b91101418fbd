/**
 * Big-endian unsigned 32-bit integers, as `DataView.setUint32(off, n, false)`,
 * `DataView.getUint32(off, false)` and Go's `binary.BigEndian.Uint32` handle them.
 */
module BigEndian {
  import opened Common

  const Two32: int := 0x1_0000_0000

  /**
   * The four bytes `setUint32` stores: ToUint32 reduces the argument modulo 2^32,
   * then the most significant byte comes first.
   */
  function Uint32Bytes(n: int): (r: seq<Byte>)
    ensures |r| == 4
  {
    var u := n % Two32;
    [u / 0x100_0000, (u / 0x1_0000) % 0x100, (u / 0x100) % 0x100, u % 0x100]
  }

  /** The value `getUint32(off)` reads; the caller guarantees four bytes are there. */
  function ReadUint32(b: seq<Byte>, off: nat): (r: int)
    requires off + 4 <= |b|
    ensures 0 <= r < Two32
  {
    var b0: int, b1: int, b2: int, b3: int := b[off], b[off + 1], b[off + 2], b[off + 3];
    b0 * 0x100_0000 + b1 * 0x1_0000 + b2 * 0x100 + b3
  }

  /** Reading back what was written gives the argument modulo 2^32. */
  lemma ReadWrite(n: int)
    ensures ReadUint32(Uint32Bytes(n), 0) == n % Two32
  {
    var u := n % Two32;
    var q1 := u / 0x100;
    var q2 := q1 / 0x100;
    var q3 := q2 / 0x100;
    ShiftTwice(u);
    assert u == q1 * 0x100 + u % 0x100;
    assert q1 == q2 * 0x100 + q1 % 0x100;
    assert q2 == q3 * 0x100 + q2 % 0x100;
    assert u == ((q3 * 0x100 + q2 % 0x100) * 0x100 + q1 % 0x100) * 0x100 + u % 0x100;
  }

  /** Taking one byte off, twice or three times, is a shift by 16 or 24 bits. */
  lemma ShiftTwice(u: int)
    requires u >= 0
    ensures u / 0x1_0000 == (u / 0x100) / 0x100
    ensures u / 0x100_0000 == ((u / 0x100) / 0x100) / 0x100
  {
    ShiftByte(u, 0x100);
    ShiftByte(u, 0x1_0000);
  }

  /** u / (256 * d) == (u / d) / 256, for the two divisors ShiftTwice needs. */
  lemma ShiftByte(u: int, d: int)
    requires u >= 0 && (d == 0x100 || d == 0x1_0000)
    ensures u / (d * 0x100) == (u / d) / 0x100
  {
    if d == 0x100 {
      assert u / 0x1_0000 == (u / 0x100) / 0x100;
    } else {
      assert u / 0x100_0000 == (u / 0x1_0000) / 0x100;
    }
  }

  /** Writing the value read reproduces the four bytes. */
  lemma WriteRead(b: seq<Byte>, off: nat)
    requires off + 4 <= |b|
    ensures Uint32Bytes(ReadUint32(b, off)) == b[off..off + 4]
  {
    var b0: int, b1: int, b2: int, b3: int := b[off], b[off + 1], b[off + 2], b[off + 3];
    var hi2 := b0 * 0x100 + b1;
    var hi3 := hi2 * 0x100 + b2;
    var n := hi3 * 0x100 + b3;
    assert n == ReadUint32(b, off);
    DivModByte(hi3, b3);
    DivModByte(hi2, b2);
    DivModByte(b0, b1);
    assert n == hi2 * 0x1_0000 + (b2 * 0x100 + b3);
    assert n / 0x1_0000 == hi2;
    assert n == b0 * 0x100_0000 + (b1 * 0x1_0000 + b2 * 0x100 + b3);
    assert n / 0x100_0000 == b0;
    assert n % Two32 == n;
  }

  lemma DivModByte(a: int, d: int)
    requires 0 <= d < 0x100
    ensures (a * 0x100 + d) / 0x100 == a && (a * 0x100 + d) % 0x100 == d
  {
  }

  /** A read at an offset past a prefix only sees the suffix. */
  lemma ReadPastPrefix(p: seq<Byte>, q: seq<Byte>, off: nat)
    requires off + 4 <= |q|
    ensures ReadUint32(p + q, |p| + off) == ReadUint32(q, off)
  {
    assert (p + q)[|p| + off] == q[off];
    assert (p + q)[|p| + off + 1] == q[off + 1];
    assert (p + q)[|p| + off + 2] == q[off + 2];
    assert (p + q)[|p| + off + 3] == q[off + 3];
  }

  /** A read only depends on the four bytes it covers. */
  lemma ReadSameBytes(b: seq<Byte>, off: nat, c: seq<Byte>, off': nat)
    requires off + 4 <= |b| && off' + 4 <= |c|
    requires b[off..off + 4] == c[off'..off' + 4]
    ensures ReadUint32(b, off) == ReadUint32(c, off')
  {
    assert b[off] == b[off..off + 4][0] && b[off + 1] == b[off..off + 4][1];
    assert b[off + 2] == b[off..off + 4][2] && b[off + 3] == b[off..off + 4][3];
    assert c[off'] == c[off'..off' + 4][0] && c[off' + 1] == c[off'..off' + 4][1];
    assert c[off' + 2] == c[off'..off' + 4][2] && c[off' + 3] == c[off'..off' + 4][3];
  }
}
