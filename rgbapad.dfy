/**
 * The 4-byte RGBA texel the GL windows upload for one pixel (`setPixelColor` of
 * web/root/glwindow.js, `placePixel` of root/js/glwindow.js): alpha is set to 255
 * first, then `rgba[i] = color[i]` for every index of `color`; writes past index 3
 * of a Uint8Array are dropped, so a fourth colour byte replaces the alpha.
 */
module RgbaPad {
  import opened Common

  /** Texel byte i for `color`. */
  function TexelByte(color: seq<Byte>, i: nat): Byte
  {
    if i < |color| then color[i] else if i == 3 then 255 else 0
  }

  method PadRGBA(color: seq<Byte>) returns (rgba: seq<Byte>)
    ensures |rgba| == 4
    ensures forall i :: 0 <= i < 4 ==> rgba[i] == TexelByte(color, i)
    ensures rgba[3] == if |color| > 3 then color[3] else 255
  {
    var buf := new Byte[4];
    buf[0], buf[1], buf[2] := 0, 0, 0;
    buf[3] := 255;
    for i := 0 to |color|
      invariant forall j :: 0 <= j < 4 ==> buf[j] == if j < i then color[j] else if j == 3 then 255 else 0
    {
      if i < 4 {
        buf[i] := color[i];
      }
    }
    rgba := buf[..];
  }

  /** An RGB colour gives the opaque texel of that colour. */
  lemma RgbIsOpaque(color: seq<Byte>)
    requires |color| == 3
    ensures forall i :: 0 <= i < 4 ==> TexelByte(color, i) == if i < 3 then color[i] else 255
  {
  }
}
