/**
 * The class-style client of web/root/place.js: the first socket message carries
 * the draw permission, pixel events are applied only once the snapshot is on the
 * texture (earlier ones are dropped), and a local paint is sent and then applied.
 */
module SyncPlace {
  import opened Common
  import opened BigEndian
  import opened PixelWire
  import opened CanvasSurface

  /**
   * What the first message sets `#allowDraw` to: `getUint8(0) === 1`;
   * an empty message throws and leaves the flag null.
   */
  function PermissionFrom(b: seq<Byte>): (r: Option<bool>)
    ensures r.Some? <==> |b| >= 1
    ensures r.Some? ==> (r.value <==> b[0] == 1)
  {
    if |b| == 0 then None else Some(b[0] == 1)
  }

  class Place {
    /** True once the snapshot image has been put on the texture. */
    var loaded: bool
    /** None is `null`; otherwise the socket's readyState. */
    var socket: Option<int>
    /** None is `null`, the value before the permission message. */
    var allowDraw: Option<bool>
    /** The messages handed to `socket.send`, in order. */
    var sent: seq<seq<Byte>>
    /** The calls made on the GL window, in order. */
    var surface: seq<SurfaceOp>

    constructor ()
      ensures !loaded && socket == None && allowDraw == None
      ensures sent == [] && surface == []
    {
      loaded := false;
      socket := None;
      allowDraw := None;
      sent := [];
      surface := [];
    }

    /** `#connect`: a new WebSocket, CONNECTING until the browser opens it. */
    method Connect()
      modifies this`socket
      ensures socket == Some(WsConnecting)
    {
      socket := Some(WsConnecting);
    }

    /** The browser finishing the handshake of a CONNECTING socket. */
    method Opened()
      modifies this`socket
      ensures socket == if old(socket) == Some(WsConnecting) then Some(WsOpen) else old(socket)
    {
      if socket == Some(WsConnecting) {
        socket := Some(WsOpen);
      }
    }

    /** `socketMessage`: the first message sets the permission, later ones are pixel events. */
    method SocketMessage(b: seq<Byte>)
      modifies this`allowDraw, this`surface
      ensures old(allowDraw) == None ==> allowDraw == PermissionFrom(b) && surface == old(surface)
      ensures old(allowDraw).Some? ==> allowDraw == old(allowDraw)
      ensures old(allowDraw).Some? ==> surface == old(surface) + PaintFor(b)
    {
      if allowDraw == None {
        if |b| >= 1 {
          allowDraw := Some(b[0] == 1);
        }
      } else {
        HandleSocketSetPixel(b);
      }
    }

    /** The paint call an incoming event makes once the canvas is loaded. */
    function PaintFor(b: seq<Byte>): (r: seq<SurfaceOp>)
      reads this`loaded
      ensures !loaded ==> r == []
      ensures loaded && DecodeEvent(b).Some? ==> r == Paints([DecodeEvent(b).value])
      ensures loaded && DecodeEvent(b).Some? ==> r == [Paint(ReadUint32(b, 0), ReadUint32(b, 4), b[8..])]
      ensures DecodeEvent(b).None? ==> r == []
    {
      if loaded then match DecodeEvent(b) case Some(e) => [Paint(e.x, e.y, e.color)] case None => [] else []
    }

    /** `#handleSocketSetPixel`: applied when loaded, otherwise discarded. */
    method HandleSocketSetPixel(b: seq<Byte>)
      modifies this`surface
      ensures surface == old(surface) + PaintFor(b)
    {
      if loaded {
        var e := DecodeEvent(b);
        if e.Some? {
          surface := surface + [Paint(e.value.x, e.value.y, e.value.color)];
        }
      }
    }

    /** `socketClose`. */
    method SocketClose()
      modifies this`socket
      ensures socket == None
    {
      socket := None;
    }

    /** `socketError`: `this.#socket.close()` (a TypeError when the socket is already null). */
    method SocketError()
      modifies this`socket
      ensures socket == if old(socket).Some? then Some(WsClosing) else None
    {
      if socket.Some? {
        socket := Some(WsClosing);
      }
    }

    /** The snapshot fetch resolving: `#setImage` puts it on the texture, then `#loaded`. */
    method SnapshotLoaded(image: seq<Byte>)
      modifies this`surface, this`loaded
      ensures loaded
      ensures surface == old(surface) + [LoadImage(image)]
    {
      surface := surface + [LoadImage(image)];
      loaded := true;
    }

    /** `setPixel`: sends and paints only with permission and an open socket. */
    method SetPixel(x: int, y: int, color: seq<Byte>)
      modifies this`sent, this`surface
      ensures allowDraw != Some(true) ==> sent == old(sent) && surface == old(surface)
      ensures allowDraw == Some(true) && socket == Some(WsOpen) ==>
                sent == old(sent) + [EncodeEvent(x, y, color)] &&
                surface == old(surface) + [Paint(x, y, color)]
      ensures socket != Some(WsOpen) ==> sent == old(sent) && surface == old(surface)
    {
      if allowDraw != Some(true) {
        return;
      }
      if socket.Some? && socket.value == WsOpen {
        var b := BuildEvent(x, y, color);
        sent := sent + [b];
        surface := surface + [Paint(x, y, color)];
      }
    }
  }

  /**
   * An event that arrives before the snapshot leaves no trace; one that arrives
   * after it shows on the canvas.
   */
  method BootstrapScenario(image: seq<Byte>, early: PixelEvent, late: PixelEvent)
    requires Canonical(early) && Canonical(late)
  {
    var p := new Place();
    p.Connect();
    p.Opened();
    p.SocketMessage([1]);
    EncodeLayout(early.x, early.y, early.color);
    p.SocketMessage(EncodeEvent(early.x, early.y, early.color));
    assert p.surface == [];
    p.SnapshotLoaded(image);
    RoundTrip(late);
    p.SocketMessage(EncodeEvent(late.x, late.y, late.color));
    assert p.surface == [LoadImage(image)] + Paints([late]);
    VisibleAfterLoad([], image, [late]);
    assert Visible(p.surface) == [late];
  }

  /** A client allowed to draw sends nothing once its socket has closed. */
  method ClosedScenario(mine: PixelEvent)
  {
    var p := new Place();
    p.Connect();
    p.Opened();
    p.SocketMessage([1]);
    assert p.allowDraw == Some(true);
    p.SocketClose();
    p.SetPixel(mine.x, mine.y, mine.color);
    assert p.sent == [];
  }
}
