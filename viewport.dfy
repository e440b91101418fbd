/**
 * The camera state of the class-style GL window of web/root/glwindow.js: the
 * canvas size, the texture size, the camera position and the zoom, which stays
 * within [0.01, 40].
 */
module Viewport {
  import opened Common
  import opened ViewMath
  import opened RgbaPad

  const MinZoom: real := 0.01
  const MaxZoom: real := 40.0

  /** The zoom `setTexture` picks: the canvas's longer side over the matching image side. */
  function FitZoom(cvsW: real, cvsH: real, imgW: real, imgH: real): real
    requires imgW > 0.0 && imgH > 0.0
  {
    if cvsW > cvsH then cvsW / imgW else cvsH / imgH
  }

  /**
   * At the fit zoom (before clamping) the image spans the canvas exactly along the
   * canvas's longer side: the click box along that axis has width 1, the whole
   * normalised canvas.
   */
  lemma FitSpansLongerSide(cvsW: real, cvsH: real, imgW: real, imgH: real, cam: real)
    requires imgW > 0.0 && imgH > 0.0 && cvsW > 0.0 && cvsH > 0.0
    ensures cvsW > cvsH ==>
              HighEdge(imgW, cam, FitZoom(cvsW, cvsH, imgW, imgH), cvsW)
              - LowEdge(imgW, cam, FitZoom(cvsW, cvsH, imgW, imgH), cvsW) == 1.0
    ensures cvsW <= cvsH ==>
              HighEdge(imgH, cam, FitZoom(cvsW, cvsH, imgW, imgH), cvsH)
              - LowEdge(imgH, cam, FitZoom(cvsW, cvsH, imgW, imgH), cvsH) == 1.0
  {
    var z := FitZoom(cvsW, cvsH, imgW, imgH);
    if cvsW > cvsH {
      ShaderAffine(0.0, imgW, cam, z, cvsW);
      assert imgW * (cvsW / imgW) == cvsW;
    } else {
      ShaderAffine(0.0, imgH, cam, z, cvsH);
      assert imgH * (cvsH / imgH) == cvsH;
    }
  }

  class GLWindow {
    /** `cvs.width` and `cvs.height`, the drawing-buffer size. */
    var cvsW: real
    var cvsH: real
    /** `#texScale`: the size of the texture, 0 x 0 before the first `setTexture`. */
    var texW: real
    var texH: real
    /** `#camPos`. */
    var camX: real
    var camY: real
    /** `#zoom`. */
    var zoom: real
    /** The texels uploaded by `setPixelColor`, in order: (x, y, rgba). */
    var uploads: seq<(int, int, seq<Byte>)>

    /** The zoom stays in range whatever is called. */
    predicate Valid()
      reads this
    {
      MinZoom <= zoom <= MaxZoom
    }

    /** The constructor, ending with `updateViewScale`. */
    constructor (clientW: real, clientH: real)
      ensures Valid()
      ensures texW == 0.0 && texH == 0.0 && camX == 0.0 && camY == 0.0 && zoom == 1.0
      ensures cvsW == clientW && cvsH == clientH && uploads == []
    {
      uploads := [];
      texW, texH := 0.0, 0.0;
      camX, camY := 0.0, 0.0;
      zoom := 1.0;
      cvsW, cvsH := clientW, clientH;
    }

    /** `updateViewScale`: the drawing buffer takes the element's client size. */
    method UpdateViewScale(clientW: real, clientH: real)
      modifies this`cvsW, this`cvsH
      ensures cvsW == clientW && cvsH == clientH
    {
      cvsW, cvsH := clientW, clientH;
    }

    /** `setZoom`. */
    method SetZoom(z: real)
      modifies this`zoom
      ensures Valid()
      ensures zoom == Clamp(z, MinZoom, MaxZoom)
    {
      var z' := z;
      if z' < MinZoom {
        z' := MinZoom;
      }
      if z' > MaxZoom {
        z' := MaxZoom;
      }
      zoom := z';
    }

    /** `move`: the camera moves against the drag, in texture units. */
    method Move(dx: real, dy: real)
      requires Valid()
      modifies this`camX, this`camY
      ensures camX == old(camX) - dx / zoom && camY == old(camY) - dy / zoom
    {
      camX := camX - dx / zoom;
      camY := camY - dy / zoom;
    }

    /** `scroll`: the camera takes the scroll offsets. */
    method Scroll(scrollLeft: real, scrollTop: real)
      modifies this`camX, this`camY
      ensures camX == scrollLeft && camY == scrollTop
    {
      camX, camY := scrollLeft, scrollTop;
    }

    /** `setTexture`: the texture size becomes the image size and the zoom is fitted, then clamped. */
    method SetTexture(imgW: real, imgH: real)
      requires imgW > 0.0 && imgH > 0.0
      modifies this`texW, this`texH, this`zoom
      ensures texW == imgW && texH == imgH
      ensures Valid()
      ensures zoom == Clamp(FitZoom(cvsW, cvsH, imgW, imgH), MinZoom, MaxZoom)
    {
      texW, texH := imgW, imgH;
      if cvsW > cvsH {
        zoom := cvsW / texW;
      } else {
        zoom := cvsH / texH;
      }
      SetZoom(zoom);
    }

    /** `setPixelColor`: one RGBA texel, alpha 255 unless the colour has a fourth byte. */
    method SetPixelColor(x: int, y: int, color: seq<Byte>)
      modifies this`uploads
      ensures |uploads| == |old(uploads)| + 1 && uploads[..|old(uploads)|] == old(uploads)
      ensures var (ux, uy, rgba) := uploads[|old(uploads)|];
              ux == x && uy == y && |rgba| == 4 && forall i :: 0 <= i < 4 ==> rgba[i] == TexelByte(color, i)
    {
      var rgba := PadRGBA(color);
      uploads := uploads + [(x, y, rgba)];
    }

    /**
     * `click(pos)` for a point in canvas pixels, divided by the canvas size. With a
     * texture and a laid-out canvas the result is never NaN and every hit lies on
     * the texture.
     */
    function ClickAt(px: real, py: real): (r: ClickOutcome)
      reads this
      requires cvsW != 0.0 && cvsH != 0.0
      ensures Valid() && texW > 0.0 && texH > 0.0 && cvsW > 0.0 && cvsH > 0.0 ==>
                r != NotANumber && (r.Hit? ==> 0.0 <= r.at.x <= texW && 0.0 <= r.at.y <= texH)
    {
      if Valid() && texW > 0.0 && texH > 0.0 && cvsW > 0.0 && cvsH > 0.0 then
        ClickRange(px, py, texW, texH, camX, camY, zoom, cvsW, cvsH);
        Click(px, py, texW, texH, camX, camY, zoom, cvsW, cvsH)
      else
        Click(px, py, texW, texH, camX, camY, zoom, cvsW, cvsH)
    }
  }
}
