/**
 * The two ends of the WebSocket protocol of server.go and web/root/place.js
 * taken together: what the server sends first is read by the client as its
 * permission, and what the client encodes for a pixel of the canvas is what the
 * server accepts, parses and relays.
 */
module Protocol {
  import opened Common
  import opened BigEndian
  import opened PixelWire
  import SyncPlace
  import PixelServer

  /** The welcome byte of `writeLoop` is read back by `socketMessage` as the same permission. */
  lemma WelcomeGrantsPermission(allowDraw: bool)
    ensures SyncPlace.PermissionFrom(PixelServer.Welcome(allowDraw)) == Some(allowDraw)
  {
  }

  /**
   * A placement the client encodes for a pixel of the canvas passes the server's
   * checks, and the server relays the very bytes, which every client decodes back
   * to the same pixel and colour.
   */
  lemma PlacementAccepted(x: int, y: int, color: seq<Byte>, width: int, height: int)
    requires InBounds(x, y, width, height) && width <= Two32 && height <= Two32 && |color| == 3
    ensures PixelServer.Accepts(EncodeEvent(x, y, color), width, height)
    ensures PixelServer.ParseEvent(EncodeEvent(x, y, color)) == (x, y, Some(PixelServer.NRGBA(color[0], color[1], color[2], 255)))
    ensures DecodeEvent(EncodeEvent(x, y, color)) == Some(PixelEvent(x, y, color))
  {
    PixelServer.ParseOfEncoded(x, y, color);
    DecodeEncode(x, y, color);
    assert x % Two32 == x && y % Two32 == y;
    assert [ByteAt(color, 0), ByteAt(color, 1), ByteAt(color, 2)] == color;
  }

  /** A pixel beyond a canvas of at most 2^32 columns is refused however the client encodes it. */
  lemma OffCanvasRefused(x: int, y: int, color: seq<Byte>, width: int, height: int)
    requires 0 <= x < Two32 && 0 <= y < Two32 && !InBounds(x, y, width, height)
    ensures !PixelServer.Accepts(EncodeEvent(x, y, color), width, height)
  {
    PixelServer.ParseOfEncoded(x, y, color);
    assert x % Two32 == x && y % Two32 == y;
  }
}
