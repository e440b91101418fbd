/**
 * The WebSocket server of server.go, run sequentially: the canvas image and its
 * encoded-PNG cache, the optional whitelist with its record image, and the
 * fixed-size table of client channels the broadcast loop owns. A PNG encoding is
 * represented by the image it encodes, so a coherent cache is one that holds the
 * current image.
 */
module PixelServer {
  import opened Common
  import opened BigEndian
  import opened PixelWire
  import SlotTable

  /** `make(chan []byte, 8)`: the buffer of each client channel. */
  const ChannelCapacity: nat := 8

  type Uint16 = n: int | 0 <= n < 0x1_0000

  /** The colours the server stores: NRGBA in the canvas, Gray16 ids in the record. */
  datatype Colour = NRGBA(r: Byte, g: Byte, b: Byte, a: Byte) | Gray16(v: Uint16)

  /** A `draw.Image` as the colours set in it, by pixel. */
  type Raster = map<(int, int), Colour>

  /**
   * A client channel: which call of `HandleSocket` made it (channels are
   * distinct values in Go) and the messages waiting in its buffer.
   */
  datatype Channel = Channel(serial: nat, buffered: seq<seq<Byte>>)

  /**
   * `parseEvent`: an 11-byte message gives big-endian x and y and an opaque
   * colour from bytes 8 to 10; any other length gives (-1, -1, nil).
   */
  function ParseEvent(b: seq<Byte>): (r: (int, int, Option<Colour>))
    ensures r.2.None? <==> |b| != EventSize
    ensures r.2.None? ==> r.0 == -1 && r.1 == -1
    ensures r.2.Some? ==> 0 <= r.0 < Two32 && 0 <= r.1 < Two32 && r.2.value.NRGBA? && r.2.value.a == 255
  {
    if |b| != 11 then (-1, -1, None)
    else (ReadUint32(b, 0), ReadUint32(b, 4), Some(NRGBA(b[8], b[9], b[10], 255)))
  }

  /**
   * The server parses exactly what a client encodes: the coordinates modulo 2^32
   * and the three colour bytes, made opaque.
   */
  lemma ParseOfEncoded(x: int, y: int, color: seq<Byte>)
    ensures ParseEvent(EncodeEvent(x, y, color))
         == (x % Two32, y % Two32, Some(NRGBA(ByteAt(color, 0), ByteAt(color, 1), ByteAt(color, 2), 255)))
  {
    DecodeEncode(x, y, color);
    EncodeLayout(x, y, color);
  }

  /** The messages `setPixel` accepts: 11 bytes naming a pixel of the canvas. */
  predicate Accepts(p: seq<Byte>, width: int, height: int)
  {
    |p| == EventSize && InBounds(ReadUint32(p, 0), ReadUint32(p, 4), width, height)
  }

  /**
   * The decision of `HandleSocket`, as (allowDraw, id): everyone may draw as id 0
   * without the whitelist; with it, only a `key` cookie found in the whitelist,
   * under the id it maps to. A missing key reads as id 0.
   */
  function Permission(enableWL: bool, cookie: Option<string>, whitelist: map<string, Uint16>): (r: (bool, Uint16))
    ensures !enableWL ==> r == (true, 0)
    ensures enableWL ==> (r.0 <==> cookie.Some? && cookie.value in whitelist)
    ensures enableWL && r.0 ==> r.1 == whitelist[cookie.value]
    ensures !r.0 ==> r.1 == 0
  {
    if !enableWL then (true, 0)
    else if cookie.None? then (false, 0)
    else if cookie.value in whitelist then (true, whitelist[cookie.value])
    else (false, 0)
  }

  /** The first message of `writeLoop`: the single byte 1 with permission, else 0. */
  function Welcome(allowDraw: bool): (r: seq<Byte>)
    ensures |r| == 1 && (r[0] == 1 <==> allowDraw) && (r[0] == 0 <==> !allowDraw)
  {
    if allowDraw then [1] else [0]
  }

  /** One slot of the broadcast: a channel with room takes p, a full one is closed and cleared. */
  function Deliver(slot: Option<Channel>, p: seq<Byte>): (r: Option<Channel>)
    ensures slot.None? ==> r.None?
    ensures r.Some? ==> slot.Some? && r.value.serial == slot.value.serial &&
                        r.value.buffered == slot.value.buffered + [p]
    ensures slot.Some? ==> (r.Some? <==> |slot.value.buffered| < ChannelCapacity)
  {
    match slot
    case None => None
    case Some(ch) => if |ch.buffered| < ChannelCapacity then Some(Channel(ch.serial, ch.buffered + [p])) else None
  }

  /** The table after broadcasting p. */
  function Delivered(s: seq<Option<Channel>>, p: seq<Byte>): (r: seq<Option<Channel>>)
    ensures |r| == |s| && forall i :: 0 <= i < |s| ==> r[i] == Deliver(s[i], p)
  {
    seq(|s|, i requires 0 <= i < |s| => Deliver(s[i], p))
  }

  /** A broadcast never fills a slot, so it never raises the client count. */
  lemma {:induction false} BroadcastNeverAdds(s: seq<Option<Channel>>, p: seq<Byte>)
    ensures SlotTable.Occupied(Delivered(s, p)) <= SlotTable.Occupied(s)
  {
    if s != [] {
      var n := |s| - 1;
      assert Delivered(s, p)[..n] == Delivered(s[..n], p);
      BroadcastNeverAdds(s[..n], p);
    }
  }

  /** Closing slot i as the broadcast loop does: whatever channel is there now. */
  function CloseSlot(s: seq<Option<Channel>>, i: nat): (r: seq<Option<Channel>>)
    requires i < |s|
    ensures |r| == |s| && r[i].None? && forall j :: 0 <= j < |s| && j != i ==> r[j] == s[j]
  {
    s[i := None]
  }

  /** Closing slot i only while it still holds the channel with the given serial. */
  function CloseOwnSlot(s: seq<Option<Channel>>, i: nat, serial: nat): (r: seq<Option<Channel>>)
    requires i < |s|
    ensures |r| == |s| && forall j :: 0 <= j < |s| && j != i ==> r[j] == s[j]
    ensures s[i].Some? && s[i].value.serial == serial ==> r[i].None?
    ensures !(s[i].Some? && s[i].value.serial == serial) ==> r[i] == s[i]
  {
    if s[i].Some? && s[i].value.serial == serial then s[i := None] else s
  }

  /**
   * A client whose full channel was evicted leaves its read loop later and sends
   * its slot index on `close`. If a newcomer has taken the slot meanwhile, closing
   * by index evicts the newcomer; closing by channel keeps it.
   */
  lemma StaleCloseEvictsNewcomer(p: seq<Byte>)
    ensures var full := [Some(Channel(0, seq(ChannelCapacity, _ => p)))];
            var evicted := Delivered(full, p);
            var reused := evicted[0 := Some(Channel(1, []))];
            evicted == [None] &&
            CloseSlot(reused, 0) == [None] &&
            CloseOwnSlot(reused, 0, 0) == reused && reused[0].Some?
  {
    var full := [Some(Channel(0, seq(ChannelCapacity, _ => p)))];
    assert Delivered(full, p)[0] == None;
  }

  /** How `HandleSocket` ends. */
  datatype Admission =
    | ServerFull
    | UpgradeFailed
    | Admitted(slot: nat, serial: nat, allowDraw: bool, id: Uint16, welcome: seq<Byte>)

  class Server {
    const width: int
    const height: int
    const enableWL: bool
    const whitelist: map<string, Uint16>
    /** `clients`: nil, or the channel of a connected client. */
    const clients: array<Option<Channel>>
    var img: Raster
    /** `imgBuf`: nil, or the encoding of the image it was made from. */
    var imgBuf: Option<Raster>
    var record: Raster
    var recordBuf: Option<Raster>
    /** The number of channels made so far; the next one gets this serial. */
    var made: nat

    /** The caches are coherent, no channel holds more than its buffer, serials are distinct. */
    predicate Valid()
      reads this, clients
    {
      (imgBuf.Some? ==> imgBuf.value == img) &&
      (recordBuf.Some? ==> recordBuf.value == record) &&
      (forall i :: 0 <= i < clients.Length && clients[i].Some? ==>
         |clients[i].value.buffered| <= ChannelCapacity && clients[i].value.serial < made) &&
      (forall i, j :: 0 <= i < j < clients.Length && clients[i].Some? && clients[j].Some? ==>
         clients[i].value.serial != clients[j].value.serial)
    }

    /** `NewServer`: `count` empty slots and no cached encoding. */
    constructor (img: Raster, record: Raster, width: int, height: int, count: nat,
                 enableWL: bool, whitelist: map<string, Uint16>)
      ensures Valid()
      ensures this.img == img && this.record == record && this.width == width && this.height == height
      ensures this.enableWL == enableWL && this.whitelist == whitelist
      ensures fresh(clients) && clients.Length == count && SlotTable.Occupied(clients[..]) == 0
      ensures forall i :: 0 <= i < count ==> clients[i].None?
      ensures imgBuf == None && recordBuf == None
    {
      this.img, this.record := img, record;
      this.width, this.height := width, height;
      this.enableWL, this.whitelist := enableWL, whitelist;
      clients := new Option<Channel>[count](_ => None);
      imgBuf, recordBuf := None, None;
      made := 0;
      new;
      NoneUnoccupied(clients[..]);
    }

    /** `HandleGetStat`: the number of connected clients. */
    method HandleGetStat() returns (count: nat)
      ensures count == SlotTable.Occupied(clients[..])
      ensures count == clients.Length <==> SlotTable.Full(clients[..])
    {
      count := SlotTable.CountOccupied(clients);
      SlotTable.FullIffAllOccupied(clients[..]);
    }

    /**
     * `HandleSocket`: decide the permission, take the lowest free slot (503 when
     * there is none), upgrade, and install a fresh channel; the writer's first
     * message is the permission byte.
     */
    method HandleSocket(cookie: Option<string>, upgradeOk: bool) returns (r: Admission)
      requires Valid()
      modifies clients, this`made
      ensures Valid()
      ensures r.ServerFull? <==> SlotTable.Full(old(clients[..]))
      ensures r.ServerFull? || r.UpgradeFailed? ==> clients[..] == old(clients[..]) && made == old(made)
      ensures r.UpgradeFailed? ==> !upgradeOk
      ensures r.Admitted? ==>
                upgradeOk && r.slot < clients.Length && old(clients[r.slot]).None? &&
                (forall j :: 0 <= j < r.slot ==> old(clients[j]).Some?) &&
                r.serial == old(made) && made == old(made) + 1 &&
                clients[..] == old(clients[..])[r.slot := Some(Channel(r.serial, []))] &&
                (r.allowDraw, r.id) == Permission(enableWL, cookie, whitelist) &&
                r.welcome == Welcome(r.allowDraw)
    {
      var (allowDraw, id) := Permission(enableWL, cookie, whitelist);
      var i := SlotTable.FirstFree(clients);
      if i == -1 {
        return ServerFull;
      }
      if !upgradeOk {
        return UpgradeFailed;
      }
      clients[i] := Some(Channel(made, []));
      r := Admitted(i, made, allowDraw, id, Welcome(allowDraw));
      made := made + 1;
    }

    /**
     * `setPixel`: reject a pixel off the canvas; otherwise set it, drop the image
     * cache and, with the whitelist, record the id and drop the record cache.
     */
    method SetPixel(x: int, y: int, c: Colour, id: Uint16) returns (ok: bool)
      requires Valid()
      modifies this`img, this`imgBuf, this`record, this`recordBuf
      ensures Valid()
      ensures ok <==> InBounds(x, y, width, height)
      ensures !ok ==> img == old(img) && imgBuf == old(imgBuf) && record == old(record) && recordBuf == old(recordBuf)
      ensures ok ==> img == old(img)[(x, y) := c] && imgBuf == None
      ensures ok && enableWL ==> record == old(record)[(x, y) := Gray16(id)] && recordBuf == None
      ensures ok && !enableWL ==> record == old(record) && recordBuf == old(recordBuf)
    {
      if 0 > x || x >= width || 0 > y || y >= height {
        return false;
      }
      img := img[(x, y) := c];
      imgBuf := None;
      if enableWL {
        record := record[(x, y) := Gray16(id)];
        recordBuf := None;
      }
      return true;
    }

    /** The `msgs` case of `broadcastLoop`: every channel with room takes p, every full one is dropped. */
    method Broadcast(p: seq<Byte>)
      requires Valid()
      modifies clients
      ensures Valid()
      ensures clients[..] == Delivered(old(clients[..]), p)
    {
      for i := 0 to clients.Length
        invariant forall j :: 0 <= j < i ==> clients[j] == Deliver(old(clients[j]), p)
        invariant forall j :: i <= j < clients.Length ==> clients[j] == old(clients[j])
      {
        if clients[i].Some? {
          var ch := clients[i].value;
          if |ch.buffered| < ChannelCapacity {
            clients[i] := Some(Channel(ch.serial, ch.buffered + [p]));
          } else {
            clients[i] := None;
          }
        }
      }
    }

    /**
     * `handleMessage`: parse, place, and on success broadcast the message
     * unchanged; otherwise report an error and change nothing.
     */
    method HandleMessage(p: seq<Byte>, id: Uint16) returns (ok: bool)
      requires Valid()
      modifies this`img, this`imgBuf, this`record, this`recordBuf, clients
      ensures Valid()
      ensures ok <==> Accepts(p, width, height)
      ensures !ok ==> img == old(img) && imgBuf == old(imgBuf) && record == old(record) &&
                      recordBuf == old(recordBuf) && clients[..] == old(clients[..])
      ensures ok ==> img == old(img)[(ReadUint32(p, 0), ReadUint32(p, 4)) := NRGBA(p[8], p[9], p[10], 255)] &&
                     imgBuf == None && clients[..] == Delivered(old(clients[..]), p)
      ensures ok && enableWL ==> record == old(record)[(ReadUint32(p, 0), ReadUint32(p, 4)) := Gray16(id)] &&
                                 recordBuf == None
      ensures ok && !enableWL ==> record == old(record) && recordBuf == old(recordBuf)
    {
      var (x, y, c) := ParseEvent(p);
      ok := false;
      // A message of the wrong length parses to x = -1, which `setPixel` rejects.
      if c.Some? {
        ok := SetPixel(x, y, c.value, id);
      }
      if ok {
        Broadcast(p);
      }
    }

    /** The `close` case of `broadcastLoop` as written: clear slot i, whoever holds it. */
    method CloseAsWritten(i: nat)
      requires Valid() && i < clients.Length
      modifies clients
      ensures Valid()
      ensures clients[..] == CloseSlot(old(clients[..]), i)
    {
      if clients[i].Some? {
        clients[i] := None;
      }
    }

    /** Closing the client's own channel: slot i is cleared only while it still holds that channel. */
    method Close(i: nat, serial: nat)
      requires Valid() && i < clients.Length
      modifies clients
      ensures Valid()
      ensures clients[..] == CloseOwnSlot(old(clients[..]), i, serial)
    {
      if clients[i].Some? && clients[i].value.serial == serial {
        clients[i] := None;
      }
    }

    /**
     * One turn of `readLoop` for the client of slot i, as written: a client without
     * permission, over the rate, or sending a placement `handleMessage` rejects is
     * kicked, and `sv.close <- i` clears slot i whoever holds it by then.
     */
    method ReadLoopStepAsWritten(i: nat, allowDraw: bool, id: Uint16, p: seq<Byte>, withinRate: bool)
      returns (kicked: bool)
      requires Valid() && i < clients.Length
      modifies this`img, this`imgBuf, this`record, this`recordBuf, clients
      ensures Valid()
      ensures kicked <==> !allowDraw || !withinRate || !Accepts(p, width, height)
      ensures kicked ==>
                img == old(img) && imgBuf == old(imgBuf) && record == old(record) && recordBuf == old(recordBuf) &&
                clients[..] == CloseSlot(old(clients[..]), i)
      ensures !kicked ==>
                img == old(img)[(ReadUint32(p, 0), ReadUint32(p, 4)) := NRGBA(p[8], p[9], p[10], 255)] &&
                imgBuf == None && clients[..] == Delivered(old(clients[..]), p)
      ensures !kicked && enableWL ==>
                record == old(record)[(ReadUint32(p, 0), ReadUint32(p, 4)) := Gray16(id)] && recordBuf == None
      ensures !kicked && !enableWL ==> record == old(record) && recordBuf == old(recordBuf)
    {
      if !allowDraw || !withinRate {
        CloseAsWritten(i);
        return true;
      }
      var ok := HandleMessage(p, id);
      if !ok {
        CloseAsWritten(i);
        return true;
      }
      return false;
    }

    /**
     * The same turn with the corrected close: the kicked client clears its slot
     * only while the slot still holds its own channel, the one with this serial.
     */
    method ReadLoopStep(i: nat, serial: nat, allowDraw: bool, id: Uint16, p: seq<Byte>, withinRate: bool)
      returns (kicked: bool)
      requires Valid() && i < clients.Length
      modifies this`img, this`imgBuf, this`record, this`recordBuf, clients
      ensures Valid()
      ensures kicked <==> !allowDraw || !withinRate || !Accepts(p, width, height)
      ensures kicked ==>
                img == old(img) && imgBuf == old(imgBuf) && record == old(record) && recordBuf == old(recordBuf) &&
                clients[..] == CloseOwnSlot(old(clients[..]), i, serial)
      ensures !kicked ==>
                img == old(img)[(ReadUint32(p, 0), ReadUint32(p, 4)) := NRGBA(p[8], p[9], p[10], 255)] &&
                imgBuf == None && clients[..] == Delivered(old(clients[..]), p)
      ensures !kicked && enableWL ==>
                record == old(record)[(ReadUint32(p, 0), ReadUint32(p, 4)) := Gray16(id)] && recordBuf == None
      ensures !kicked && !enableWL ==> record == old(record) && recordBuf == old(recordBuf)
    {
      if !allowDraw || !withinRate {
        Close(i, serial);
        return true;
      }
      var ok := HandleMessage(p, id);
      if !ok {
        Close(i, serial);
        return true;
      }
      return false;
    }

    /** `writeLoop` taking the next buffered message of slot i, if there is one. */
    method WriterTakes(i: nat) returns (p: Option<seq<Byte>>)
      requires Valid() && i < clients.Length
      modifies clients
      ensures Valid()
      ensures old(clients[i]).Some? && old(clients[i]).value.buffered != [] ==>
                p == Some(old(clients[i]).value.buffered[0]) &&
                clients[..] == old(clients[..])[i := Some(Channel(old(clients[i]).value.serial,
                                                                  old(clients[i]).value.buffered[1..]))]
      ensures !(old(clients[i]).Some? && old(clients[i]).value.buffered != []) ==>
                p == None && clients[..] == old(clients[..])
    {
      if clients[i].Some? && clients[i].value.buffered != [] {
        var ch := clients[i].value;
        p := Some(ch.buffered[0]);
        clients[i] := Some(Channel(ch.serial, ch.buffered[1..]));
      } else {
        p := None;
      }
    }

    /** `GetImageBytes`: the cached encoding, made from the current image when there is none. */
    method GetImageBytes() returns (encoded: Raster)
      requires Valid()
      modifies this`imgBuf
      ensures Valid()
      ensures encoded == img && imgBuf == Some(img)
      ensures old(imgBuf).Some? ==> encoded == old(imgBuf).value
    {
      if imgBuf.None? {
        imgBuf := Some(img);
      }
      encoded := imgBuf.value;
    }

    /** `GetRecordBytes`, which panics without the whitelist. */
    method GetRecordBytes() returns (encoded: Raster)
      requires Valid() && enableWL
      modifies this`recordBuf
      ensures Valid()
      ensures encoded == record && recordBuf == Some(record)
      ensures old(recordBuf).Some? ==> encoded == old(recordBuf).value
    {
      if recordBuf.None? {
        recordBuf := Some(record);
      }
      encoded := recordBuf.value;
    }
  }

  /** A table of nil slots counts no client. */
  lemma {:induction false} NoneUnoccupied(s: seq<Option<Channel>>)
    requires forall i :: 0 <= i < |s| ==> s[i].None?
    ensures SlotTable.Occupied(s) == 0
  {
    if s != [] {
      NoneUnoccupied(s[..|s| - 1]);
    }
  }
}
