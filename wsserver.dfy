/**
 * The smaller WebSocket server of ws/server.go, run sequentially: a `placeImage`
 * canvas with its encoded-PNG cache and a fixed-size table of connections. A
 * connection is closed when a read or a write fails, but its slot is never set
 * back to nil. A PNG encoding is represented by the bytes of the canvas it
 * encodes.
 */
module WsServer {
  import opened Common
  import opened BigEndian
  import opened PixelWire
  import opened Raster
  import SlotTable
  import PlaceImage

  /** A connection: which upgrade made it, the messages written to it, and whether it is still open. */
  datatype Conn = Conn(serial: nat, written: seq<seq<Byte>>, open: bool)

  /** `parseEvent`: an 11-byte message gives big-endian x and y and bytes 8 on; anything else (-1, -1, nil). */
  function ParseEvent(b: seq<Byte>): (r: (int, int, Option<seq<Byte>>))
    ensures r.2.None? <==> |b| != EventSize
    ensures r.2.None? ==> r.0 == -1 && r.1 == -1
    ensures r.2.Some? ==> 0 <= r.0 < Two32 && 0 <= r.1 < Two32 && |r.2.value| == 3
  {
    if |b| != 11 then (-1, -1, None) else (ReadUint32(b, 0), ReadUint32(b, 4), Some(b[8..]))
  }

  /** The message a client encodes parses back to its coordinates modulo 2^32 and its three colour bytes. */
  lemma ParseOfEncoded(x: int, y: int, color: seq<Byte>)
    ensures ParseEvent(EncodeEvent(x, y, color))
         == (x % Two32, y % Two32, Some([ByteAt(color, 0), ByteAt(color, 1), ByteAt(color, 2)]))
  {
    DecodeEncode(x, y, color);
  }

  /** `conn.WriteMessage` on one open connection succeeds; on a closed one it fails and `Close` leaves it closed. */
  function Write(c: Conn, p: seq<Byte>): (r: Conn)
    ensures r.serial == c.serial && r.open == c.open
    ensures c.open ==> r.written == c.written + [p]
    ensures !c.open ==> r.written == c.written
  {
    if c.open then Conn(c.serial, c.written + [p], true) else c
  }

  /** The broadcast the server needs: write p to every connection present, skip the nil slots. */
  function SendAll(s: seq<Option<Conn>>, p: seq<Byte>): (r: seq<Option<Conn>>)
    ensures |r| == |s|
    ensures forall i :: 0 <= i < |s| ==> r[i] == if s[i].Some? then Some(Write(s[i].value, p)) else None
  {
    seq(|s|, i requires 0 <= i < |s| => if s[i].Some? then Some(Write(s[i].value, p)) else None)
  }

  /** The corrected broadcast frees no slot and fills none. */
  lemma SendAllKeepsSlots(s: seq<Option<Conn>>, p: seq<Byte>)
    ensures forall i :: 0 <= i < |s| ==> (SendAll(s, p)[i].Some? <==> s[i].Some?)
    ensures SlotTable.Full(SendAll(s, p)) <==> SlotTable.Full(s)
  {
  }

  /** How `ServeHTTP` answers a request for the socket. */
  datatype Admission = ServiceUnavailable | Fatal | Connected(slot: nat)

  class Server {
    const img: PlaceImage.PlaceImage
    const conns: array<Option<Conn>>
    /** `imgBuf`: nil, or the canvas bytes it was encoded from. */
    var imgBuf: Option<seq<Byte>>
    /** The number of upgrades so far. */
    var made: nat

    predicate Valid()
      reads this, img, img.pixels
    {
      img.Valid() && (imgBuf.Some? ==> imgBuf.value == img.pixels[..])
    }

    /** `NewServer`: a zeroed canvas and `count` nil slots. */
    constructor (width: int, height: int, count: nat)
      requires width * height >= 0
      ensures Valid() && fresh(img) && fresh(img.pixels) && fresh(conns)
      ensures img.width == width && img.height == height && conns.Length == count
      ensures forall i :: 0 <= i < count ==> conns[i].None?
      ensures forall i :: 0 <= i < img.pixels.Length ==> img.pixels[i] == 0
      ensures imgBuf == None
    {
      img := new PlaceImage.PlaceImage(width, height);
      conns := new Option<Conn>[count](_ => None);
      imgBuf := None;
      made := 0;
    }

    /** `positionOk`. */
    function PositionOk(x: int, y: int): (ok: bool)
      reads this, img
      ensures ok <==> InBounds(x, y, img.width, img.height)
    {
      0 <= x && x < img.width && 0 <= y && y < img.height
    }

    /**
     * The socket branch of `ServeHTTP`: 503 with no free slot, `log.Fatal` when the
     * upgrade fails, otherwise the lowest free slot takes the new connection.
     */
    method Connect(upgradeOk: bool) returns (r: Admission)
      modifies conns, this`made
      ensures r.ServiceUnavailable? <==> SlotTable.Full(old(conns[..]))
      ensures !r.Connected? ==> conns[..] == old(conns[..]) && made == old(made)
      ensures r.Fatal? ==> !upgradeOk
      ensures r.Connected? ==>
                upgradeOk && r.slot < conns.Length && old(conns[r.slot]).None? &&
                (forall j :: 0 <= j < r.slot ==> old(conns[j]).Some?) &&
                conns[..] == old(conns[..])[r.slot := Some(Conn(old(made), [], true))] && made == old(made) + 1
    {
      var i := SlotTable.FirstFree(conns);
      if i == -1 {
        return ServiceUnavailable;
      }
      if !upgradeOk {
        return Fatal;
      }
      conns[i] := Some(Conn(made, [], true));
      made := made + 1;
      return Connected(i);
    }

    /**
     * `broadcast` as written: `WriteMessage` on every slot, nil ones included. A
     * nil `*websocket.Conn` panics at the lowest nil slot `at`; the slots before it
     * have been written, the rest are untouched.
     */
    method BroadcastAsWritten(p: seq<Byte>) returns (panicked: bool, at: nat)
      modifies conns
      ensures panicked <==> !SlotTable.Full(old(conns[..]))
      ensures at <= conns.Length && (panicked <==> at < conns.Length)
      ensures panicked ==> old(conns[at]).None?
      ensures forall j :: 0 <= j < at ==> old(conns[j]).Some? && conns[j] == Some(Write(old(conns[j]).value, p))
      ensures forall j :: at <= j < conns.Length ==> conns[j] == old(conns[j])
      ensures !panicked ==> conns[..] == SendAll(old(conns[..]), p)
    {
      for i := 0 to conns.Length
        invariant forall j :: 0 <= j < i ==> old(conns[j]).Some? && conns[j] == Some(Write(old(conns[j]).value, p))
        invariant forall j :: i <= j < conns.Length ==> conns[j] == old(conns[j])
      {
        if conns[i].None? {
          return true, i;
        }
        conns[i] := Some(Write(conns[i].value, p));
      }
      return false, conns.Length;
    }

    /** The broadcast without the nil dereference: nil slots are skipped. */
    method Broadcast(p: seq<Byte>)
      modifies conns
      ensures conns[..] == SendAll(old(conns[..]), p)
    {
      for i := 0 to conns.Length
        invariant forall j :: 0 <= j < i ==> conns[j] == if old(conns[j]).Some? then Some(Write(old(conns[j]).value, p)) else None
        invariant forall j :: i <= j < conns.Length ==> conns[j] == old(conns[j])
      {
        if conns[i].Some? {
          conns[i] := Some(Write(conns[i].value, p));
        }
      }
    }

    /**
     * One turn of `handleConnection` for the connection in slot i, as written: a
     * failed read (None) or a placement off the canvas closes the connection, which
     * keeps its slot; a good one sets the pixel, drops the cache and broadcasts the
     * identical bytes with `broadcast`, which panics when some slot is nil.
     */
    method ReadMessageAsWritten(i: nat, message: Option<seq<Byte>>) returns (failed: bool, panicked: bool)
      requires Valid() && i < conns.Length && conns[i].Some?
      modifies img.pixels, this`imgBuf, conns
      ensures Valid()
      ensures failed <==> message.None? || !Accepted(message.value)
      ensures failed ==> !panicked && img.pixels[..] == old(img.pixels[..]) && imgBuf == old(imgBuf) &&
                         conns[..] == old(conns[..])[i := Some(Conn(old(conns[i]).value.serial, old(conns[i]).value.written, false))]
      ensures !failed ==>
                var p := message.value;
                0 <= PixelBase(ReadUint32(p, 0), ReadUint32(p, 4), img.width, 3) <= img.pixels.Length &&
                img.pixels[..] == CopyInto(old(img.pixels[..]), PixelBase(ReadUint32(p, 0), ReadUint32(p, 4), img.width, 3), p[8..]) &&
                imgBuf == None && (panicked <==> !SlotTable.Full(old(conns[..]))) &&
                (!panicked ==> conns[..] == SendAll(old(conns[..]), p))
    {
      if message.None? || !Accepted(message.value) {
        CloseConn(i);
        return true, false;
      }
      panicked := PlaceAsWritten(message.value);
      return false, panicked;
    }

    /**
     * The accepting path of `readMessage` as written: set the pixel, drop the cache,
     * `broadcast`. The panic at a nil slot leaves every slot written or untouched.
     */
    method PlaceAsWritten(p: seq<Byte>) returns (panicked: bool)
      requires Valid() && Accepted(p)
      modifies img.pixels, this`imgBuf, conns
      ensures Valid()
      ensures 0 <= PixelBase(ReadUint32(p, 0), ReadUint32(p, 4), img.width, 3) <= img.pixels.Length &&
              img.pixels[..] == CopyInto(old(img.pixels[..]), PixelBase(ReadUint32(p, 0), ReadUint32(p, 4), img.width, 3), p[8..])
      ensures imgBuf == None && (panicked <==> !SlotTable.Full(old(conns[..])))
      ensures !panicked ==> conns[..] == SendAll(old(conns[..]), p)
      ensures forall j :: 0 <= j < conns.Length ==>
                conns[j] == old(conns[j]) || (old(conns[j]).Some? && conns[j] == Some(Write(old(conns[j]).value, p)))
    {
      var x, y := ReadUint32(p, 0), ReadUint32(p, 4);
      PixelInBuffer(x, y, img.width, img.height, 3);
      img.Set(x, y, p[8..]);
      imgBuf := None;
      var at;
      panicked, at := BroadcastAsWritten(p);
    }

    /**
     * The same turn with the corrected broadcast: the placement reaches every
     * connection present and the nil slots are skipped.
     */
    method ReadMessage(i: nat, message: Option<seq<Byte>>) returns (failed: bool)
      requires Valid() && i < conns.Length && conns[i].Some?
      modifies img.pixels, this`imgBuf, conns
      ensures Valid()
      ensures failed <==> message.None? || !Accepted(message.value)
      ensures failed ==> img.pixels[..] == old(img.pixels[..]) && imgBuf == old(imgBuf) &&
                         conns[..] == old(conns[..])[i := Some(Conn(old(conns[i]).value.serial, old(conns[i]).value.written, false))]
      ensures !failed ==>
                var p := message.value;
                0 <= PixelBase(ReadUint32(p, 0), ReadUint32(p, 4), img.width, 3) <= img.pixels.Length &&
                img.pixels[..] == CopyInto(old(img.pixels[..]), PixelBase(ReadUint32(p, 0), ReadUint32(p, 4), img.width, 3), p[8..]) &&
                imgBuf == None && conns[..] == SendAll(old(conns[..]), p)
    {
      if message.None? || !Accepted(message.value) {
        CloseConn(i);
        return true;
      }
      Place(message.value);
      return false;
    }

    /** The accepting path with the corrected broadcast: set the pixel, drop the cache, write to each connection present. */
    method Place(p: seq<Byte>)
      requires Valid() && Accepted(p)
      modifies img.pixels, this`imgBuf, conns
      ensures Valid()
      ensures 0 <= PixelBase(ReadUint32(p, 0), ReadUint32(p, 4), img.width, 3) <= img.pixels.Length &&
              img.pixels[..] == CopyInto(old(img.pixels[..]), PixelBase(ReadUint32(p, 0), ReadUint32(p, 4), img.width, 3), p[8..])
      ensures imgBuf == None && conns[..] == SendAll(old(conns[..]), p)
    {
      var x, y := ReadUint32(p, 0), ReadUint32(p, 4);
      PixelInBuffer(x, y, img.width, img.height, 3);
      img.Set(x, y, p[8..]);
      imgBuf := None;
      Broadcast(p);
    }

    /** The placements `readMessage` accepts: 11 bytes naming a pixel of the canvas. */
    predicate Accepted(p: seq<Byte>)
      reads this, img
    {
      |p| == EventSize && InBounds(ReadUint32(p, 0), ReadUint32(p, 4), img.width, img.height)
    }

    /** `c.Close()`: the connection stays in its slot. */
    method CloseConn(i: nat)
      requires i < conns.Length && conns[i].Some?
      modifies conns
      ensures conns[..] == old(conns[..])[i := Some(Conn(old(conns[i]).value.serial, old(conns[i]).value.written, false))]
    {
      var c := conns[i].value;
      conns[i] := Some(Conn(c.serial, c.written, false));
    }

    /** `bufferImg`: the cached encoding, made from the current canvas when there is none. */
    method BufferImg() returns (encoded: seq<Byte>)
      requires Valid()
      modifies this`imgBuf
      ensures Valid()
      ensures encoded == img.pixels[..] && imgBuf == Some(encoded)
      ensures old(imgBuf).Some? ==> encoded == old(imgBuf).value
    {
      if imgBuf.None? {
        imgBuf := Some(img.pixels[..]);
      }
      encoded := imgBuf.value;
    }
  }

  /** Two slots, one client: the first accepted placement reaches the nil slot and panics. */
  lemma HalfFullTablePanics(c: Conn)
    ensures !SlotTable.Full([Some(c), None])
  {
    assert [Some(c), None][1].None?;
  }
}
