/**
 * The closure-style GL window of root/js/glwindow.js: the same quad geometry as
 * the class-style window, with the zoom capped at 20, a `scroll` that sets the
 * camera, a `setTexture` that keeps the current zoom, and a `click` that
 * normalises by the bounding rectangle.
 */
module ClosureViewport {
  import opened Common
  import opened ViewMath
  import opened RgbaPad

  const MinZoom: real := 0.01
  const MaxZoom: real := 20.0

  class GLWindow {
    /** `tex_scale`, 0 x 0 before the first `setTexture`. */
    var texW: real
    var texH: real
    /** `cam_pos`. */
    var camX: real
    var camY: real
    var zoom: real
    /** The texels uploaded by `placePixel`, in order: (x, y, rgba). */
    var uploads: seq<(int, int, seq<Byte>)>

    predicate Valid()
      reads this
    {
      MinZoom <= zoom <= MaxZoom
    }

    constructor ()
      ensures Valid()
      ensures texW == 0.0 && texH == 0.0 && camX == 0.0 && camY == 0.0 && zoom == 1.0 && uploads == []
    {
      texW, texH := 0.0, 0.0;
      camX, camY := 0.0, 0.0;
      zoom := 1.0;
      uploads := [];
    }

    /** `setZoom`. */
    method SetZoom(z: real)
      modifies this`zoom
      ensures Valid()
      ensures zoom == Clamp(z, MinZoom, MaxZoom)
    {
      var z' := z;
      if z' < MinZoom {
        z' := MinZoom;
      }
      if z' > MaxZoom {
        z' := MaxZoom;
      }
      zoom := z';
    }

    /** `move`. */
    method Move(dx: real, dy: real)
      requires Valid()
      modifies this`camX, this`camY
      ensures camX == old(camX) - dx / zoom && camY == old(camY) - dy / zoom
    {
      camX := camX - dx / zoom;
      camY := camY - dy / zoom;
    }

    /** `scroll`: `cam_pos` takes the scroll offsets of the event target. */
    method Scroll(scrollLeft: real, scrollTop: real)
      modifies this`camX, this`camY
      ensures camX == scrollLeft && camY == scrollTop
    {
      camX, camY := scrollLeft, scrollTop;
    }

    /** `setTexture`: the image size, then `setZoom(zoom)`, which keeps a zoom already in range. */
    method SetTexture(imgW: real, imgH: real)
      modifies this`texW, this`texH, this`zoom
      ensures texW == imgW && texH == imgH
      ensures Valid()
      ensures zoom == Clamp(old(zoom), MinZoom, MaxZoom)
      ensures old(Valid()) ==> zoom == old(zoom)
    {
      texW, texH := imgW, imgH;
      SetZoom(zoom);
    }

    /** `placePixel`: one RGBA texel, alpha 255 unless the colour has a fourth byte. */
    method PlacePixel(x: int, y: int, color: seq<Byte>)
      modifies this`uploads
      ensures |uploads| == |old(uploads)| + 1 && uploads[..|old(uploads)|] == old(uploads)
      ensures var (ux, uy, rgba) := uploads[|old(uploads)|];
              ux == x && uy == y && |rgba| == 4 && forall i :: 0 <= i < 4 ==> rgba[i] == TexelByte(color, i)
    {
      var rgba := PadRGBA(color);
      uploads := uploads + [(x, y, rgba)];
    }

    /**
     * `click(ev)`: `ev.clientX / rect.width` and `ev.clientY / rect.height` (the
     * rectangle's offset is not subtracted), then the shared box test and remap.
     */
    function ClickAt(clientX: real, clientY: real, rectW: real, rectH: real): (r: ClickOutcome)
      reads this
      requires rectW != 0.0 && rectH != 0.0
      ensures Valid() && texW > 0.0 && texH > 0.0 && rectW > 0.0 && rectH > 0.0 ==>
                r != NotANumber && (r.Hit? ==> 0.0 <= r.at.x <= texW && 0.0 <= r.at.y <= texH)
    {
      if Valid() && texW > 0.0 && texH > 0.0 && rectW > 0.0 && rectH > 0.0 then
        ClickRange(clientX, clientY, texW, texH, camX, camY, zoom, rectW, rectH);
        Click(clientX, clientY, texW, texH, camX, camY, zoom, rectW, rectH)
      else
        Click(clientX, clientY, texW, texH, camX, camY, zoom, rectW, rectH)
    }
  }
}
