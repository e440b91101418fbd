/**
 * The colour field of the three GUIs (web/root/main.js, web/root/js/main.js and
 * root/js/main.js carry the same code): the `change` handler keeps the hex
 * characters of the field, uppercases them, truncates to 6, pads with '0' and
 * parses three bytes; the colour picker formats each byte as two hex digits
 * behind '#'.
 */
module ColourField {
  import opened Common

  predicate IsHexChar(c: char)
  {
    '0' <= c <= '9' || 'A' <= c <= 'F' || 'a' <= c <= 'f'
  }

  predicate IsUpperHexChar(c: char)
  {
    '0' <= c <= '9' || 'A' <= c <= 'F'
  }

  /** `toUpperCase` on one character (only letters change). */
  function Upper(c: char): char
  {
    if 'a' <= c <= 'z' then (c as int - 'a' as int + 'A' as int) as char else c
  }

  function UpperString(s: string): (r: string)
    ensures |r| == |s|
    ensures forall i :: 0 <= i < |s| ==> r[i] == Upper(s[i])
  {
    if s == [] then [] else [Upper(s[0])] + UpperString(s[1..])
  }

  /** `value.replace(/[^A-Fa-f0-9]/g, "").toUpperCase()`. */
  function HexFilter(s: string): (r: string)
    ensures forall i :: 0 <= i < |r| ==> IsUpperHexChar(r[i])
    ensures |r| <= |s|
  {
    if s == [] then [] else (if IsHexChar(s[0]) then [Upper(s[0])] else []) + HexFilter(s[1..])
  }

  /** The filter works character by character, keeping the order of the input. */
  lemma {:induction false} HexFilterConcat(a: string, b: string)
    ensures HexFilter(a + b) == HexFilter(a) + HexFilter(b)
  {
    if a == [] {
      assert a + b == b;
    } else {
      var head := if IsHexChar(a[0]) then [Upper(a[0])] else [];
      assert (a + b)[0] == a[0];
      assert (a + b)[1..] == a[1..] + b;
      assert HexFilter(a + b) == head + HexFilter(a[1..] + b);
      HexFilterConcat(a[1..], b);
      ConcatAssoc(head, HexFilter(a[1..]), HexFilter(b));
    }
  }

  /** A string of uppercase hex digits passes the filter unchanged. */
  lemma {:induction false} HexFilterKeepsUpperHex(s: string)
    requires forall i :: 0 <= i < |s| ==> IsUpperHexChar(s[i])
    ensures HexFilter(s) == s
  {
    if s != [] {
      HexFilterKeepsUpperHex(s[1..]);
    }
  }

  /** The six digits the handler keeps: the first six filtered digits, then '0's. */
  function Normalized(value: string): (r: string)
    ensures |r| == 6
    ensures forall i :: 0 <= i < 6 ==> IsUpperHexChar(r[i])
    ensures forall i :: 0 <= i < 6 ==> r[i] == if i < |HexFilter(value)| then HexFilter(value)[i] else '0'
  {
    var f := HexFilter(value);
    var t := if |f| > 6 then f[..6] else f;
    t + seq(6 - |t|, _ => '0')
  }

  /** `hex = hex.substring(0, 6); while (hex.length < 6) hex += "0";` on the filtered value. */
  method NormalizeHex(value: string) returns (hex: string)
    ensures hex == Normalized(value)
  {
    hex := HexFilter(value);
    if |hex| > 6 {
      hex := hex[..6];
    }
    ghost var kept := hex;
    while |hex| < 6
      invariant |kept| <= |hex| <= 6 && hex[..|kept|] == kept
      invariant forall i :: |kept| <= i < |hex| ==> hex[i] == '0'
      invariant forall i :: 0 <= i < |kept| ==> kept[i] == HexFilter(value)[i]
      invariant |kept| == if |HexFilter(value)| > 6 then 6 else |HexFilter(value)|
    {
      hex := hex + "0";
    }
  }

  /** The value of an uppercase hex digit. */
  function DigitValue(c: char): (n: int)
    requires IsUpperHexChar(c)
    ensures 0 <= n < 16
  {
    if c <= '9' then c as int - '0' as int else c as int - 'A' as int + 10
  }

  /** `parseInt(pair, 16)` for two uppercase hex digits. */
  function ParsePair(hi: char, lo: char): Byte
    requires IsUpperHexChar(hi) && IsUpperHexChar(lo)
  {
    16 * DigitValue(hi) + DigitValue(lo)
  }

  /** `color[0..2]` from the six digits. */
  function ParseColour(hex: string): (c: seq<Byte>)
    requires |hex| == 6 && forall i :: 0 <= i < 6 ==> IsUpperHexChar(hex[i])
    ensures |c| == 3
    ensures forall i :: 0 <= i < 3 ==> c[i] == 16 * DigitValue(hex[2 * i]) + DigitValue(hex[2 * i + 1])
  {
    [ParsePair(hex[0], hex[1]), ParsePair(hex[2], hex[3]), ParsePair(hex[4], hex[5])]
  }

  /** Six uppercase digits behind '#' normalise to themselves. */
  lemma NormalizeHashed(h: string)
    requires |h| == 6 && forall i :: 0 <= i < 6 ==> IsUpperHexChar(h[i])
    ensures Normalized("#" + h) == h
  {
    assert ("#" + h)[0] == '#' && ("#" + h)[1..] == h;
    HexFilterKeepsUpperHex(h);
    assert HexFilter("#" + h) == h;
    assert h + seq(0, _ => '0') == h;
  }

  /** Writing back `'#' + hex` and normalising again changes nothing. */
  lemma NormalizeIdempotent(value: string)
    ensures Normalized("#" + Normalized(value)) == Normalized(value)
  {
    NormalizeHashed(Normalized(value));
  }

  /** `Number.prototype.toString(16)` for one lowercase digit. */
  function LowerDigit(d: int): (c: char)
    requires 0 <= d < 16
    ensures IsHexChar(c) && Upper(c) == UpperDigit(d)
  {
    if d < 10 then ('0' as int + d) as char else ('a' as int + d - 10) as char
  }

  function UpperDigit(d: int): (c: char)
    requires 0 <= d < 16
    ensures IsUpperHexChar(c) && DigitValue(c) == d
  {
    if d < 10 then ('0' as int + d) as char else ('A' as int + d - 10) as char
  }

  /** `b.toString(16)`: no leading zero. */
  function ByteToString16(b: Byte): (s: string)
    ensures |s| == if b < 16 then 1 else 2
  {
    if b < 16 then [LowerDigit(b)] else [LowerDigit(b / 16), LowerDigit(b % 16)]
  }

  /** Two lowercase digits per byte. */
  function Pairs(color: seq<Byte>): (r: string)
    ensures |r| == 2 * |color|
    ensures forall i :: 0 <= i < |color| ==>
              r[2 * i] == LowerDigit(color[i] / 16) && r[2 * i + 1] == LowerDigit(color[i] % 16)
  {
    if color == [] then []
    else
      var last := color[|color| - 1];
      Pairs(color[..|color| - 1]) + [LowerDigit(last / 16), LowerDigit(last % 16)]
  }

  /**
   * The loop of `pickColor`: `'#'`, then each byte's `toString(16)` with a '0'
   * prepended when it has one digit.
   */
  method FormatPicked(color: seq<Byte>) returns (hex: string)
    ensures hex == "#" + Pairs(color)
    ensures |hex| == 1 + 2 * |color|
  {
    hex := "#";
    for i := 0 to |color|
      invariant hex == "#" + Pairs(color[..i])
    {
      var d := ByteToString16(color[i]);
      if |d| == 1 {
        d := "0" + d;
      }
      FormatStep(color, i, hex, d);
      hex := hex + d;
    }
    assert color[..|color|] == color;
  }

  /** One round of the `pickColor` loop extends the text by the pair of byte i. */
  lemma FormatStep(color: seq<Byte>, i: nat, hex: string, d: string)
    requires i < |color| && hex == "#" + Pairs(color[..i])
    requires d == var s := ByteToString16(color[i]); if |s| == 1 then "0" + s else s
    ensures hex + d == "#" + Pairs(color[..i + 1])
  {
    var pair := [LowerDigit(color[i] / 16), LowerDigit(color[i] % 16)];
    PaddedDigits(color[i]);
    assert d == pair;
    PairsSnoc(color, i);
    ConcatAssoc("#", Pairs(color[..i]), pair);
  }

  lemma ConcatAssoc<T>(a: seq<T>, b: seq<T>, c: seq<T>)
    ensures (a + b) + c == a + (b + c)
  {
  }

  /** A byte's `toString(16)`, padded with '0' to two characters, is its two digits. */
  lemma PaddedDigits(b: Byte)
    ensures var d := ByteToString16(b);
            (if |d| == 1 then "0" + d else d) == [LowerDigit(b / 16), LowerDigit(b % 16)]
  {
    if b < 16 {
      assert b / 16 == 0 && b % 16 == b;
    }
  }

  /** The pairs of one more byte are the pairs so far and that byte's two digits. */
  lemma PairsSnoc(color: seq<Byte>, i: nat)
    requires i < |color|
    ensures Pairs(color[..i + 1]) == Pairs(color[..i]) + [LowerDigit(color[i] / 16), LowerDigit(color[i] % 16)]
  {
    assert color[..i + 1][..i] == color[..i];
  }

  /** The uppercased pairs of an RGB colour: two uppercase digits per byte. */
  lemma UpperPairs(color: seq<Byte>)
    requires |color| == 3
    ensures UpperString(Pairs(color))
         == [UpperDigit(color[0] / 16), UpperDigit(color[0] % 16),
             UpperDigit(color[1] / 16), UpperDigit(color[1] % 16),
             UpperDigit(color[2] / 16), UpperDigit(color[2] % 16)]
  {
    var p := Pairs(color);
    assert p[0] == LowerDigit(color[0] / 16) && p[1] == LowerDigit(color[0] % 16);
    assert p[2] == LowerDigit(color[1] / 16) && p[3] == LowerDigit(color[1] % 16);
    assert p[4] == LowerDigit(color[2] / 16) && p[5] == LowerDigit(color[2] % 16);
  }

  /** `toUpperCase` leaves '#' alone. */
  lemma UpperHash(s: string)
    ensures UpperString("#" + s) == "#" + UpperString(s)
  {
    assert ("#" + s)[1..] == s;
  }

  /** Parsing the uppercase digits of three bytes gives the bytes back. */
  lemma ParseUpperDigits(color: seq<Byte>)
    requires |color| == 3
    ensures ParseColour([UpperDigit(color[0] / 16), UpperDigit(color[0] % 16),
                         UpperDigit(color[1] / 16), UpperDigit(color[1] % 16),
                         UpperDigit(color[2] / 16), UpperDigit(color[2] % 16)]) == color
  {
  }

  /**
   * Normalising the uppercased picker output reproduces the picked bytes: the
   * field round-trips an RGB colour.
   */
  lemma PickedRoundTrip(color: seq<Byte>)
    requires |color| == 3
    ensures Normalized(UpperString("#" + Pairs(color))) == UpperString(Pairs(color))
    ensures ParseColour(Normalized(UpperString("#" + Pairs(color)))) == color
  {
    UpperHash(Pairs(color));
    UpperPairs(color);
    NormalizeHashed(UpperString(Pairs(color)));
    ParseUpperDigits(color);
  }

  /**
   * The `change` handler of the colour field: the field's value is normalised,
   * `color[0..2]` takes the parsed pairs and the field is written back as `'#'`
   * plus the six digits.
   */
  method EditField(value: string) returns (field: string, color: seq<Byte>)
    ensures field == "#" + Normalized(value)
    ensures color == ParseColour(Normalized(value))
    ensures |field| == 7 && |color| == 3
  {
    var hex := NormalizeHex(value);
    color := [ParsePair(hex[0], hex[1]), ParsePair(hex[2], hex[3]), ParsePair(hex[4], hex[5])];
    field := "#" + hex;
  }

  /** Editing the field a second time changes neither the field nor the colour. */
  lemma EditFieldTwice(value: string)
    ensures Normalized("#" + Normalized(value)) == Normalized(value)
    ensures ParseColour(Normalized("#" + Normalized(value))) == ParseColour(Normalized(value))
  {
    NormalizeIdempotent(value);
  }

  /** The field `pickColor` writes: the picked hex string, uppercased. */
  method PickField(color: seq<Byte>) returns (field: string)
    ensures field == UpperString("#" + Pairs(color))
    ensures |field| == 1 + 2 * |color| && field[0] == '#'
  {
    var hex := FormatPicked(color);
    field := UpperString(hex);
  }
}
