/**
 * The GUI of web/root/js/main.js: the same colour field, picking, drawing and
 * zoom controls as web/root/main.js, over the queueing client of root/js/place.js
 * (`new Place(cvs, glWindow)`, `init`, `put`). Its GL window, web/root/js/glwindow.js,
 * is not part of this model; the closure-style window of root/js/glwindow.js
 * stands in for its zoom, drag and upload. Its `click` is a parameter, unrelated
 * to the mouse position, since the window that computes it is not modelled, and
 * so is the texel `getColor` reads.
 */
module QueuedGui {
  import opened Common
  import opened ViewMath
  import opened ColourField
  import opened PixelWire
  import opened CanvasSurface
  import ClosureViewport
  import QueuedPlace

  /** `zoomIn` and `zoomOut` step by 1.2. */
  const KeyZoomFactor: real := 1.2
  /** The zoom factor of one wheel step. */
  const WheelZoomFactor: real := 1.05

  class Gui {
    const window: ClosureViewport.GLWindow
    const place: QueuedPlace.Place
    /** `color`: the selected colour, three bytes. */
    var color: seq<Byte>
    /** `colorField.value`. */
    var field: string
    /** `dragdown` and `lastMovePos`. */
    var dragdown: bool
    var lastMoveX: real
    var lastMoveY: real

    predicate Valid()
      reads this, window
    {
      |color| == 3 && window.Valid()
    }

    constructor (window: ClosureViewport.GLWindow, place: QueuedPlace.Place, field: string)
      requires window.Valid()
      ensures Valid()
      ensures this.window == window && this.place == place && this.field == field
      ensures color == [0, 0, 0] && !dragdown && lastMoveX == 0.0 && lastMoveY == 0.0
    {
      this.window := window;
      this.place := place;
      this.field := field;
      color := [0, 0, 0];
      dragdown := false;
      lastMoveX, lastMoveY := 0.0, 0.0;
    }

    /** The `change` listener of the colour field. */
    method FieldChanged()
      requires Valid()
      modifies this`color, this`field
      ensures Valid()
      ensures field == "#" + Normalized(old(field))
      ensures color == ParseColour(Normalized(old(field)))
    {
      field, color := EditField(field);
    }

    /** `pickColor`: a miss makes `getColor` throw; otherwise the colour is read back and shown. */
    method PickColor(clicked: ClickOutcome, texel: seq<Byte>)
      requires Valid() && |texel| == 3
      modifies this`color, this`field
      ensures Valid()
      ensures clicked.Miss? ==> color == old(color) && field == old(field)
      ensures !clicked.Miss? ==> color == texel && field == UpperString("#" + Pairs(texel))
    {
      if clicked.Miss? {
        return;
      }
      color := texel;
      field := PickField(color);
    }

    /**
     * `drawPixel(pos)`: on a non-empty click, `put` once at the first component
     * of the texel under the point that differs from the selected colour, then
     * `break`.
     */
    method DrawPixel(clicked: ClickOutcome, oldColor: seq<Byte>)
      requires Valid() && |oldColor| == 3
      modifies place`sent, place`surface
      ensures clicked.Miss? || oldColor == color ==>
                place.sent == old(place.sent) && place.surface == old(place.surface)
      ensures !clicked.Miss? && oldColor != color ==>
                var (x, y) := TargetPixel(clicked);
                (place.socket == Some(WsOpen) ==>
                   place.sent == old(place.sent) + [EncodeEvent(x, y, color)] &&
                   place.surface == old(place.surface) + [Paint(x, y, color)]) &&
                (place.socket != Some(WsOpen) ==>
                   place.sent == old(place.sent) && place.surface == old(place.surface))
    {
      if !clicked.Miss? {
        var (x, y) := TargetPixel(clicked);
        var i := 0;
        while i < |oldColor|
          invariant 0 <= i <= |oldColor|
          invariant oldColor[..i] == color[..i]
          invariant place.sent == old(place.sent) && place.surface == old(place.surface)
        {
          if oldColor[i] != color[i] {
            place.Put(x, y, color);
            break;
          }
          assert oldColor[..i + 1] == oldColor[..i] + [oldColor[i]];
          assert color[..i + 1] == color[..i] + [color[i]];
          i := i + 1;
        }
        if i == |oldColor| {
          assert oldColor == oldColor[..3] && color == color[..3];
        }
      }
    }

    /** `zoomIn`. */
    method ZoomIn()
      requires Valid()
      modifies window`zoom
      ensures Valid()
      ensures window.zoom == Clamp(old(window.zoom) * KeyZoomFactor, ClosureViewport.MinZoom, ClosureViewport.MaxZoom)
    {
      window.SetZoom(window.zoom * KeyZoomFactor);
    }

    /** `zoomOut`. */
    method ZoomOut()
      requires Valid()
      modifies window`zoom
      ensures Valid()
      ensures window.zoom == Clamp(old(window.zoom) / KeyZoomFactor, ClosureViewport.MinZoom, ClosureViewport.MaxZoom)
    {
      window.SetZoom(window.zoom / KeyZoomFactor);
    }

    /** The `keydown` listener: '-' (189, 173) zooms out and '=' (187, 61) zooms in. */
    method KeyDown(keyCode: int)
      requires Valid()
      modifies window`zoom
      ensures Valid()
      ensures keyCode == 189 || keyCode == 173 ==>
                window.zoom == Clamp(old(window.zoom) / KeyZoomFactor, ClosureViewport.MinZoom, ClosureViewport.MaxZoom)
      ensures keyCode == 187 || keyCode == 61 ==>
                window.zoom == Clamp(old(window.zoom) * KeyZoomFactor, ClosureViewport.MinZoom, ClosureViewport.MaxZoom)
      ensures keyCode !in {189, 173, 187, 61} ==> window.zoom == old(window.zoom)
    {
      if keyCode == 189 || keyCode == 173 {
        ZoomOut();
      } else if keyCode == 187 || keyCode == 61 {
        ZoomIn();
      }
    }

    /** The `wheel` listener: scrolling down divides the zoom by 1.05, anything else multiplies. */
    method Wheel(deltaY: real)
      requires Valid()
      modifies window`zoom
      ensures Valid()
      ensures window.zoom == Clamp(if deltaY > 0.0 then old(window.zoom) / WheelZoomFactor
                                   else old(window.zoom) * WheelZoomFactor,
                                   ClosureViewport.MinZoom, ClosureViewport.MaxZoom)
    {
      var zoom := window.zoom;
      if deltaY > 0.0 {
        zoom := zoom / WheelZoomFactor;
      } else {
        zoom := zoom * WheelZoomFactor;
      }
      window.SetZoom(zoom);
    }

    /**
     * The `mousedown` listener: the left button starts a drag, the middle button
     * picks, the right button picks with ctrl and draws without.
     */
    method MouseDown(button: int, ctrlKey: bool, clientX: real, clientY: real,
                     clicked: ClickOutcome, texel: seq<Byte>)
      requires Valid() && |texel| == 3
      modifies this`dragdown, this`lastMoveX, this`lastMoveY, this`color, this`field
      modifies place`sent, place`surface
      ensures Valid()
      ensures button == 0 ==> dragdown && lastMoveX == clientX && lastMoveY == clientY
      ensures button != 0 ==> dragdown == old(dragdown) && lastMoveX == old(lastMoveX) && lastMoveY == old(lastMoveY)
      ensures (button == 1 || (button == 2 && ctrlKey)) && !clicked.Miss? ==>
                color == texel && field == UpperString("#" + Pairs(texel))
      ensures (button == 1 || (button == 2 && ctrlKey)) && clicked.Miss? ==> color == old(color) && field == old(field)
      ensures !(button == 1 || (button == 2 && ctrlKey)) ==> color == old(color) && field == old(field)
      ensures button != 2 || ctrlKey ==> place.sent == old(place.sent) && place.surface == old(place.surface)
      ensures button == 2 && !ctrlKey && (clicked.Miss? || texel == color) ==>
                place.sent == old(place.sent) && place.surface == old(place.surface)
      ensures button == 2 && !ctrlKey && !clicked.Miss? && texel != color ==>
                var (x, y) := TargetPixel(clicked);
                (place.socket == Some(WsOpen) ==>
                   place.sent == old(place.sent) + [EncodeEvent(x, y, color)] &&
                   place.surface == old(place.surface) + [Paint(x, y, color)]) &&
                (place.socket != Some(WsOpen) ==>
                   place.sent == old(place.sent) && place.surface == old(place.surface))
    {
      if button == 0 {
        dragdown := true;
        lastMoveX, lastMoveY := clientX, clientY;
      } else if button == 1 {
        PickColor(clicked, texel);
      } else if button == 2 {
        if ctrlKey {
          PickColor(clicked, texel);
        } else {
          DrawPixel(clicked, texel);
        }
      }
    }

    /** The `mouseup` listener ends the drag. */
    method MouseUp()
      modifies this`dragdown
      ensures !dragdown
    {
      dragdown := false;
    }

    /** The `mousemove` listener: while dragging, the camera follows the mouse. */
    method MouseMove(clientX: real, clientY: real)
      requires Valid()
      modifies this`lastMoveX, this`lastMoveY, window`camX, window`camY
      ensures Valid()
      ensures lastMoveX == clientX && lastMoveY == clientY
      ensures dragdown ==>
                window.camX == old(window.camX) - (clientX - old(lastMoveX)) / window.zoom &&
                window.camY == old(window.camY) - (clientY - old(lastMoveY)) / window.zoom
      ensures !dragdown ==> window.camX == old(window.camX) && window.camY == old(window.camY)
    {
      if dragdown {
        window.Move(clientX - lastMoveX, clientY - lastMoveY);
      }
      lastMoveX, lastMoveY := clientX, clientY;
    }
  }
}
