/**
 * The closure-style client of root/js/place.js: pixel events that arrive before
 * the snapshot step are pushed onto `queue`; the snapshot step drains the queue
 * and sets it to null, after which events are applied as they arrive.
 */
module QueuedPlace {
  import opened Common
  import opened PixelWire
  import opened CanvasSurface

  class Place {
    /** Some(events buffered so far) before the snapshot step; None (`null`) after it. */
    var queue: Option<seq<PixelEvent>>
    /** None is `null`; otherwise the socket's readyState. */
    var socket: Option<int>
    /** The messages handed to `socket.send`, in order. */
    var sent: seq<seq<Byte>>
    /** The calls made on the GL window, in order. */
    var surface: seq<SurfaceOp>
    /** The snapshot handed to `setImage` whose `onload` has not fired yet. */
    var pendingImage: Option<seq<Byte>>

    constructor ()
      ensures queue == Some([]) && socket == None && sent == [] && surface == [] && pendingImage == None
    {
      queue := Some([]);
      socket := None;
      sent := [];
      surface := [];
      pendingImage := None;
    }

    /** `connect`: a new WebSocket, CONNECTING until the browser opens it. */
    method Connect()
      modifies this`socket
      ensures socket == Some(WsConnecting)
    {
      socket := Some(WsConnecting);
    }

    /** The browser finishing the handshake of a CONNECTING socket. */
    method Opened()
      modifies this`socket
      ensures socket == if old(socket) == Some(WsConnecting) then Some(WsOpen) else old(socket)
    {
      if socket == Some(WsConnecting) {
        socket := Some(WsOpen);
      }
    }

    /** The socket's `close` listener. */
    method SocketClose()
      modifies this`socket
      ensures socket == None
    {
      socket := None;
    }

    /**
     * `handleResponse`: decode (a RangeError below 8 bytes, which drops the message),
     * then push onto the queue while it exists, otherwise paint at once.
     */
    method HandleResponse(b: seq<Byte>)
      modifies this`queue, this`surface
      ensures DecodeEvent(b).None? ==> queue == old(queue) && surface == old(surface)
      ensures DecodeEvent(b).Some? && old(queue).Some? ==>
                queue == Some(old(queue).value + [DecodeEvent(b).value]) && surface == old(surface)
      ensures DecodeEvent(b).Some? && old(queue).None? ==>
                queue == None && surface == old(surface) + Paints([DecodeEvent(b).value])
    {
      var e := DecodeEvent(b);
      if e.Some? {
        if queue.Some? {
          queue := Some(queue.value + [e.value]);
        } else {
          surface := surface + [Paint(e.value.x, e.value.y, e.value.color)];
        }
      }
    }

    /** `put`: with an open socket, send the 11-byte event and paint it locally. */
    method Put(x: int, y: int, color: seq<Byte>)
      modifies this`sent, this`surface
      ensures socket == Some(WsOpen) ==>
                sent == old(sent) + [EncodeEvent(x, y, color)] && surface == old(surface) + [Paint(x, y, color)]
      ensures socket != Some(WsOpen) ==> sent == old(sent) && surface == old(surface)
    {
      if socket.Some? && socket.value == WsOpen {
        var b := BuildEvent(x, y, color);
        sent := sent + [b];
        surface := surface + [Paint(x, y, color)];
      }
    }

    /**
     * The snapshot step of `init` as written: `setImage` only schedules the texture;
     * `queue.unshift()` returns the length, so `pixel.color` is undefined and the
     * first `placePixel` throws. Nothing is painted, and the queue survives unless
     * it was empty.
     */
    method SnapshotAsWritten(buf: seq<Byte>)
      requires queue.Some?
      modifies this`queue, this`pendingImage
      ensures pendingImage == Some(buf)
      ensures queue == if old(queue).value == [] then None else old(queue)
    {
      pendingImage := Some(buf);
      if |queue.value| > 0 {
        return;
      }
      queue := None;
    }

    /**
     * The snapshot step with the drain as intended: `queue[0..n)` painted in index
     * order, then the queue discarded. The texture is still only scheduled.
     */
    method Snapshot(buf: seq<Byte>)
      requires queue.Some?
      modifies this`queue, this`surface, this`pendingImage
      ensures pendingImage == Some(buf)
      ensures queue == None
      ensures surface == old(surface) + Paints(old(queue).value)
    {
      pendingImage := Some(buf);
      Drain();
    }

    /** Paints every queued event in index order, then sets the queue to null. */
    method Drain()
      requires queue.Some?
      modifies this`queue, this`surface
      ensures queue == None
      ensures surface == old(surface) + Paints(old(queue).value)
    {
      var q := queue.value;
      for i := 0 to |q|
        invariant surface == old(surface) + Paints(q[..i])
      {
        assert q[..i + 1][..i] == q[..i];
        surface := surface + [Paint(q[i].x, q[i].y, q[i].color)];
      }
      assert q[..|q|] == q;
      queue := None;
    }

    /** The image's `onload`: `glWindow.setTexture(img)`. */
    method ImageOnload()
      requires pendingImage.Some?
      modifies this`surface, this`pendingImage
      ensures pendingImage == None
      ensures surface == old(surface) + [LoadImage(old(pendingImage).value)]
    {
      surface := surface + [LoadImage(pendingImage.value)];
      pendingImage := None;
    }

    /** The snapshot step with the drain run from `onload`, after `setTexture`. */
    method SnapshotThenDrain(buf: seq<Byte>)
      requires queue.Some?
      modifies this`queue, this`surface, this`pendingImage
      ensures pendingImage == None && queue == None
      ensures surface == old(surface) + [LoadImage(buf)] + Paints(old(queue).value)
    {
      pendingImage := Some(buf);
      ImageOnload();
      Drain();
    }
  }

  /** A new client queues the events that arrive before its snapshot, in order, and paints none of them. */
  method QueueTwo(e1: PixelEvent, e2: PixelEvent) returns (p: Place)
    requires Canonical(e1) && Canonical(e2)
    ensures fresh(p) && p.queue == Some([e1, e2]) && p.surface == []
  {
    RoundTrip(e1); RoundTrip(e2);
    p := new Place();
    p.HandleResponse(EncodeEvent(e1.x, e1.y, e1.color));
    p.HandleResponse(EncodeEvent(e2.x, e2.y, e2.color));
    assert [] + [e1] + [e2] == [e1, e2];
  }

  /**
   * Two events arrive before the snapshot and one after. With the drain run after
   * `setTexture`, the canvas shows all three in arrival order.
   */
  method BootstrapScenario(image: seq<Byte>, e1: PixelEvent, e2: PixelEvent, e3: PixelEvent)
    requires Canonical(e1) && Canonical(e2) && Canonical(e3)
  {
    var p := QueueTwo(e1, e2);
    p.SnapshotThenDrain(image);
    RoundTrip(e3);
    p.HandleResponse(EncodeEvent(e3.x, e3.y, e3.color));
    PaintsSnoc([e1, e2], e3);
    assert [e1, e2] + [e3] == [e1, e2, e3];
    assert p.surface == [] + [LoadImage(image)] + Paints([e1, e2, e3]);
    VisibleAfterLoad([], image, [e1, e2, e3]);
    assert Visible(p.surface) == [e1, e2, e3];
  }

  /** With the drain run before `onload`, the two buffered events are hidden by the new texture. */
  method EarlyDrainScenario(image: seq<Byte>, e1: PixelEvent, e2: PixelEvent)
    requires Canonical(e1) && Canonical(e2)
  {
    var q := QueueTwo(e1, e2);
    q.Snapshot(image);
    q.ImageOnload();
    LoadHidesEarlierPaints(Paints([e1, e2]), image);
    assert Visible(q.surface) == [];
  }

  /**
   * The snapshot step as written, with one event queued before it: the queue is
   * never discarded, so that event and every later one stay queued and the
   * canvas shows only the snapshot.
   */
  method UnshiftScenario(image: seq<Byte>, e1: PixelEvent, e2: PixelEvent)
    requires Canonical(e1) && Canonical(e2)
  {
    RoundTrip(e1); RoundTrip(e2);
    var p := new Place();
    p.HandleResponse(EncodeEvent(e1.x, e1.y, e1.color));
    assert [] + [e1] == [e1];
    assert p.queue == Some([e1]);
    p.SnapshotAsWritten(image);
    p.ImageOnload();
    p.HandleResponse(EncodeEvent(e2.x, e2.y, e2.color));
    assert [e1] + [e2] == [e1, e2];
    assert p.queue == Some([e1, e2]);
    assert p.surface == [LoadImage(image)];
    LoadHidesEarlierPaints([], image);
    assert Visible(p.surface) == [];
  }
}
