/**
 * The GUI closure of web/root/main.js over the class-style window and client:
 * the selected colour and the colour field, the drag state of the left button,
 * the pick and draw actions of the buttons and the zoom keys, buttons and wheel.
 * The texel `getColor` reads back from the GPU is a parameter; the result of
 * `click` is the window's own `ClickAt` of the mouse position.
 */
module WebGui {
  import opened Common
  import opened ViewMath
  import opened ColourField
  import opened PixelWire
  import opened CanvasSurface
  import Viewport
  import SyncPlace

  /** The zoom factor of the keys and of the zoom buttons. */
  const KeyZoomFactor: real := 1.2
  /** The zoom factor of one wheel step. */
  const WheelZoomFactor: real := 1.05

  class Gui {
    const window: Viewport.GLWindow
    const place: SyncPlace.Place
    /** `color`: the selected colour, three bytes. */
    var color: seq<Byte>
    /** `colorField.value`. */
    var field: string
    /** `dragdown` and `lastMovePos`. */
    var dragdown: bool
    var lastMoveX: real
    var lastMoveY: real

    predicate Valid()
      reads this, window
    {
      |color| == 3 && window.Valid()
    }

    constructor (window: Viewport.GLWindow, place: SyncPlace.Place, field: string)
      requires window.Valid()
      ensures Valid()
      ensures this.window == window && this.place == place && this.field == field
      ensures color == [0, 0, 0] && !dragdown && lastMoveX == 0.0 && lastMoveY == 0.0
    {
      this.window := window;
      this.place := place;
      this.field := field;
      color := [0, 0, 0];
      dragdown := false;
      lastMoveX, lastMoveY := 0.0, 0.0;
    }

    /** The `change` listener of the colour field. */
    method FieldChanged()
      requires Valid()
      modifies this`color, this`field
      ensures Valid()
      ensures field == "#" + Normalized(old(field))
      ensures color == ParseColour(Normalized(old(field)))
    {
      field, color := EditField(field);
    }

    /**
     * `pickColor`: `getColor(click(pos))`. A miss hands `undefined` to `getColor`,
     * which throws before anything changes; otherwise the colour becomes the three
     * bytes read there and the field shows them in uppercase hex.
     */
    method PickColor(clicked: ClickOutcome, texel: seq<Byte>)
      requires Valid() && |texel| == 3
      modifies this`color, this`field
      ensures Valid()
      ensures clicked.Miss? ==> color == old(color) && field == old(field)
      ensures !clicked.Miss? ==> color == texel && field == UpperString("#" + Pairs(texel))
    {
      if clicked.Miss? {
        return;
      }
      color := texel;
      field := PickField(color);
    }

    /**
     * `drawPixel(pos, color)`: on a non-empty click, compare the texel under the
     * point with the selected colour and call `setPixel` on the first differing
     * component; report whether it was called.
     */
    method DrawPixel(clicked: ClickOutcome, oldColor: seq<Byte>) returns (drawn: bool)
      requires Valid() && |oldColor| == 3
      modifies place`sent, place`surface
      ensures drawn <==> !clicked.Miss? && oldColor != color
      ensures !drawn ==> place.sent == old(place.sent) && place.surface == old(place.surface)
      ensures drawn ==> var (x, y) := TargetPixel(clicked);
                        (place.allowDraw == Some(true) && place.socket == Some(WsOpen) ==>
                           place.sent == old(place.sent) + [EncodeEvent(x, y, color)] &&
                           place.surface == old(place.surface) + [Paint(x, y, color)]) &&
                        (place.allowDraw != Some(true) || place.socket != Some(WsOpen) ==>
                           place.sent == old(place.sent) && place.surface == old(place.surface))
    {
      if clicked.Miss? {
        return false;
      }
      var (x, y) := TargetPixel(clicked);
      var i := 0;
      while i < |oldColor|
        invariant 0 <= i <= |oldColor|
        invariant oldColor[..i] == color[..i]
      {
        if oldColor[i] != color[i] {
          place.SetPixel(x, y, color);
          return true;
        }
        assert oldColor[..i + 1] == oldColor[..i] + [oldColor[i]];
        assert color[..i + 1] == color[..i] + [color[i]];
        i := i + 1;
      }
      assert oldColor == oldColor[..3] && color == color[..3];
      return false;
    }

    /** `zoomIn(factor)`. */
    method ZoomIn(factor: real)
      requires Valid() && factor > 0.0
      modifies window`zoom
      ensures Valid()
      ensures window.zoom == Clamp(old(window.zoom) * factor, Viewport.MinZoom, Viewport.MaxZoom)
    {
      window.SetZoom(window.zoom * factor);
    }

    /** `zoomOut(factor)`. */
    method ZoomOut(factor: real)
      requires Valid() && factor > 0.0
      modifies window`zoom
      ensures Valid()
      ensures window.zoom == Clamp(old(window.zoom) / factor, Viewport.MinZoom, Viewport.MaxZoom)
    {
      window.SetZoom(window.zoom / factor);
    }

    /** The `keydown` listener: '-' (189, 173) zooms out and '=' (187, 61) zooms in, by 1.2. */
    method KeyDown(keyCode: int)
      requires Valid()
      modifies window`zoom
      ensures Valid()
      ensures keyCode == 189 || keyCode == 173 ==>
                window.zoom == Clamp(old(window.zoom) / KeyZoomFactor, Viewport.MinZoom, Viewport.MaxZoom)
      ensures keyCode == 187 || keyCode == 61 ==>
                window.zoom == Clamp(old(window.zoom) * KeyZoomFactor, Viewport.MinZoom, Viewport.MaxZoom)
      ensures keyCode !in {189, 173, 187, 61} ==> window.zoom == old(window.zoom)
    {
      if keyCode == 189 || keyCode == 173 {
        ZoomOut(KeyZoomFactor);
      } else if keyCode == 187 || keyCode == 61 {
        ZoomIn(KeyZoomFactor);
      }
    }

    /** The `wheel` listener: scrolling down divides the zoom by 1.05, anything else multiplies. */
    method Wheel(deltaY: real)
      requires Valid()
      modifies window`zoom
      ensures Valid()
      ensures window.zoom == Clamp(if deltaY > 0.0 then old(window.zoom) / WheelZoomFactor
                                   else old(window.zoom) * WheelZoomFactor,
                                   Viewport.MinZoom, Viewport.MaxZoom)
    {
      var zoom := window.zoom;
      if deltaY > 0.0 {
        zoom := zoom / WheelZoomFactor;
      } else {
        zoom := zoom * WheelZoomFactor;
      }
      window.SetZoom(zoom);
    }

    /**
     * The `mousedown` listener: the left button starts a drag, the middle button
     * picks, the right button picks with ctrl and draws without.
     */
    method MouseDown(button: int, ctrlKey: bool, clientX: real, clientY: real,
                     clicked: ClickOutcome, texel: seq<Byte>)
      requires Valid() && |texel| == 3
      requires window.cvsW != 0.0 && window.cvsH != 0.0 ==> clicked == window.ClickAt(clientX, clientY)
      modifies this`dragdown, this`lastMoveX, this`lastMoveY, this`color, this`field
      modifies place`sent, place`surface
      ensures Valid()
      ensures button == 0 ==> dragdown && lastMoveX == clientX && lastMoveY == clientY
      ensures button != 0 ==> dragdown == old(dragdown) && lastMoveX == old(lastMoveX) && lastMoveY == old(lastMoveY)
      ensures (button == 1 || (button == 2 && ctrlKey)) && !clicked.Miss? ==>
                color == texel && field == UpperString("#" + Pairs(texel))
      ensures (button == 1 || (button == 2 && ctrlKey)) && clicked.Miss? ==> color == old(color) && field == old(field)
      ensures !(button == 1 || (button == 2 && ctrlKey)) ==> color == old(color) && field == old(field)
      ensures button != 2 || ctrlKey ==> place.sent == old(place.sent) && place.surface == old(place.surface)
      ensures button == 2 && !ctrlKey && (clicked.Miss? || texel == color) ==>
                place.sent == old(place.sent) && place.surface == old(place.surface)
      ensures button == 2 && !ctrlKey && !clicked.Miss? && texel != color ==>
                var (x, y) := TargetPixel(clicked);
                (place.allowDraw == Some(true) && place.socket == Some(WsOpen) ==>
                   place.sent == old(place.sent) + [EncodeEvent(x, y, color)] &&
                   place.surface == old(place.surface) + [Paint(x, y, color)]) &&
                (place.allowDraw != Some(true) || place.socket != Some(WsOpen) ==>
                   place.sent == old(place.sent) && place.surface == old(place.surface))
    {
      if button == 0 {
        dragdown := true;
        lastMoveX, lastMoveY := clientX, clientY;
      } else if button == 1 {
        PickColor(clicked, texel);
      } else if button == 2 {
        if ctrlKey {
          PickColor(clicked, texel);
        } else {
          var _ := DrawPixel(clicked, texel);
        }
      }
    }

    /** The `mouseup` listener ends the drag. */
    method MouseUp()
      modifies this`dragdown
      ensures !dragdown
    {
      dragdown := false;
    }

    /** The `mousemove` listener: while dragging, the camera follows the mouse. */
    method MouseMove(clientX: real, clientY: real)
      requires Valid()
      modifies this`lastMoveX, this`lastMoveY, window`camX, window`camY
      ensures Valid()
      ensures lastMoveX == clientX && lastMoveY == clientY
      ensures dragdown ==>
                window.camX == old(window.camX) - (clientX - old(lastMoveX)) / window.zoom &&
                window.camY == old(window.camY) - (clientY - old(lastMoveY)) / window.zoom
      ensures !dragdown ==> window.camX == old(window.camX) && window.camY == old(window.camY)
    {
      if dragdown {
        window.Move(clientX - lastMoveX, clientY - lastMoveY);
      }
      lastMoveX, lastMoveY := clientX, clientY;
    }
  }
}
