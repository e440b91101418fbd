/**
 * The GUI of root/js/main.js over the closure-style window of root/js/glwindow.js
 * and the queueing client of root/js/place.js: the wheel, the zoom keys, the
 * `gestureend` zoom, the left-button drag, and the `mouseup` dispatch that picks
 * with the middle button (or ctrl and the right button) and otherwise puts with
 * the right button when `click` hits, without comparing colours. The texel
 * `getColor` reads back from the GPU is a parameter; the result of `click` is the
 * window's own `ClickAt` of the event's position over the target rectangle.
 */
module RootGui {
  import opened Common
  import opened ViewMath
  import opened ColourField
  import opened PixelWire
  import opened CanvasSurface
  import ClosureViewport
  import QueuedPlace

  const KeyZoomFactor: real := 1.2
  const WheelZoomFactor: real := 1.05
  const GestureZoomFactor: real := 1.1

  class Gui {
    const window: ClosureViewport.GLWindow
    const place: QueuedPlace.Place
    /** `color`: the selected colour, three bytes. */
    var color: seq<Byte>
    /** `colorField.value`. */
    var field: string
    /** `mousedown` and `lastMovePos`. */
    var mousedown: bool
    var lastMoveX: real
    var lastMoveY: real

    predicate Valid()
      reads this, window
    {
      |color| == 3 && window.Valid()
    }

    constructor (window: ClosureViewport.GLWindow, place: QueuedPlace.Place, field: string)
      requires window.Valid()
      ensures Valid()
      ensures this.window == window && this.place == place && this.field == field
      ensures color == [0, 0, 0] && !mousedown && lastMoveX == 0.0 && lastMoveY == 0.0
    {
      this.window := window;
      this.place := place;
      this.field := field;
      color := [0, 0, 0];
      mousedown := false;
      lastMoveX, lastMoveY := 0.0, 0.0;
    }

    /** The `change` listener of the colour field. */
    method FieldChanged()
      requires Valid()
      modifies this`color, this`field
      ensures Valid()
      ensures field == "#" + Normalized(old(field))
      ensures color == ParseColour(Normalized(old(field)))
    {
      field, color := EditField(field);
    }

    /** One zoom step: multiply or divide the current zoom, then `setZoom`. */
    method Step(zoomIn: bool, factor: real)
      requires Valid() && factor > 0.0
      modifies window`zoom
      ensures Valid()
      ensures window.zoom == Clamp(if zoomIn then old(window.zoom) * factor else old(window.zoom) / factor,
                                   ClosureViewport.MinZoom, ClosureViewport.MaxZoom)
    {
      var zoom := window.zoom;
      if zoomIn {
        zoom := zoom * factor;
      } else {
        zoom := zoom / factor;
      }
      window.SetZoom(zoom);
    }

    /** The `wheel` listener: scrolling down zooms out by 1.05, anything else zooms in. */
    method Wheel(deltaY: real)
      requires Valid()
      modifies window`zoom
      ensures Valid()
      ensures window.zoom == Clamp(if deltaY > 0.0 then old(window.zoom) / WheelZoomFactor
                                   else old(window.zoom) * WheelZoomFactor,
                                   ClosureViewport.MinZoom, ClosureViewport.MaxZoom)
    {
      Step(!(deltaY > 0.0), WheelZoomFactor);
    }

    /** The `keydown` listener: '-' (189, 173) zooms out and '=' (187, 61) zooms in, by 1.2. */
    method KeyDown(keyCode: int)
      requires Valid()
      modifies window`zoom
      ensures Valid()
      ensures keyCode == 189 || keyCode == 173 ==>
                window.zoom == Clamp(old(window.zoom) / KeyZoomFactor, ClosureViewport.MinZoom, ClosureViewport.MaxZoom)
      ensures keyCode == 187 || keyCode == 61 ==>
                window.zoom == Clamp(old(window.zoom) * KeyZoomFactor, ClosureViewport.MinZoom, ClosureViewport.MaxZoom)
      ensures keyCode !in {189, 173, 187, 61} ==> window.zoom == old(window.zoom)
    {
      if keyCode == 189 || keyCode == 173 {
        Step(false, KeyZoomFactor);
      } else if keyCode == 187 || keyCode == 61 {
        Step(true, KeyZoomFactor);
      }
    }

    /** The `gestureend` listener: a pinch in zooms out by 1.1, a pinch out zooms in, 1.0 does nothing. */
    method GestureEnd(scale: real)
      requires Valid()
      modifies window`zoom
      ensures Valid()
      ensures scale < 1.0 ==>
                window.zoom == Clamp(old(window.zoom) / GestureZoomFactor, ClosureViewport.MinZoom, ClosureViewport.MaxZoom)
      ensures scale > 1.0 ==>
                window.zoom == Clamp(old(window.zoom) * GestureZoomFactor, ClosureViewport.MinZoom, ClosureViewport.MaxZoom)
      ensures scale == 1.0 ==> window.zoom == old(window.zoom)
    {
      if scale < 1.0 {
        Step(false, GestureZoomFactor);
      } else if scale > 1.0 {
        Step(true, GestureZoomFactor);
      }
    }

    /** The `mousedown` listener: only the left button, which starts a drag. */
    method MouseDown(button: int)
      modifies this`mousedown
      ensures mousedown == (button == 0 || old(mousedown))
    {
      if button == 0 {
        mousedown := true;
      }
    }

    /**
     * The `mouseup` listener: the left button ends the drag; the middle button, or
     * the right button with ctrl, picks the colour under the point (a miss makes
     * `getColor` throw); the right button alone puts the selected colour when
     * `click` returns a point, whatever colour is there.
     */
    method MouseUp(button: int, ctrlKey: bool, clientX: real, clientY: real, rectW: real, rectH: real,
                   clicked: ClickOutcome, texel: seq<Byte>)
      requires Valid() && |texel| == 3
      requires rectW != 0.0 && rectH != 0.0 ==> clicked == window.ClickAt(clientX, clientY, rectW, rectH)
      modifies this`mousedown, this`color, this`field, place`sent, place`surface
      ensures Valid()
      ensures mousedown == (button != 0 && old(mousedown))
      ensures (button == 1 || (button == 2 && ctrlKey)) && !clicked.Miss? ==>
                color == texel && field == UpperString("#" + Pairs(texel))
      ensures !((button == 1 || (button == 2 && ctrlKey)) && !clicked.Miss?) ==>
                color == old(color) && field == old(field)
      ensures button == 2 && !ctrlKey && !clicked.Miss? && place.socket == Some(WsOpen) ==>
                var (x, y) := TargetPixel(clicked);
                place.sent == old(place.sent) + [EncodeEvent(x, y, color)] &&
                place.surface == old(place.surface) + [Paint(x, y, color)]
      ensures !(button == 2 && !ctrlKey && !clicked.Miss? && place.socket == Some(WsOpen)) ==>
                place.sent == old(place.sent) && place.surface == old(place.surface)
    {
      if button == 0 {
        mousedown := false;
      } else if button == 1 || (button == 2 && ctrlKey) {
        if !clicked.Miss? {
          color := texel;
          field := PickField(color);
        }
      } else if button == 2 {
        if !clicked.Miss? {
          var (x, y) := TargetPixel(clicked);
          place.Put(x, y, color);
        }
      }
    }

    /** The `mousemove` listener: while the left button is down, the camera follows the mouse. */
    method MouseMove(clientX: real, clientY: real)
      requires Valid()
      modifies this`lastMoveX, this`lastMoveY, window`camX, window`camY
      ensures Valid()
      ensures lastMoveX == clientX && lastMoveY == clientY
      ensures mousedown ==>
                window.camX == old(window.camX) - (clientX - old(lastMoveX)) / window.zoom &&
                window.camY == old(window.camY) - (clientY - old(lastMoveY)) / window.zoom
      ensures !mousedown ==> window.camX == old(window.camX) && window.camY == old(window.camY)
    {
      if mousedown {
        window.Move(clientX - lastMoveX, clientY - lastMoveY);
      }
      lastMoveX, lastMoveY := clientX, clientY;
    }
  }
}
