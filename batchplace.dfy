/**
 * The polling client of web/root/js/old/place.js. A response is a 4-byte
 * big-endian event id, a 1-byte type, then either a PNG snapshot (type 0) or a
 * run of 11-byte pixel events (type 1).
 */
module BatchPlace {
  import opened Common
  import opened BigEndian
  import opened PixelWire
  import opened CanvasSurface

  const HeaderSize: nat := 5
  const ResponseTypeImage: int := 0
  const ResponseTypeEvents: int := 1

  /*
   * Record i starts at byte 5 + 11 * i. The record size is written as the literal
   * 11 in the arithmetic below, so that the solver sees linear terms.
   */

  /** Record i, read as the loop of `handleResponse` reads it: at least 8 bytes are there. */
  function RecordAt(b: seq<Byte>, i: nat): (e: PixelEvent)
    requires 5 + 11 * i + 8 <= |b|
    ensures e.x == ReadUint32(b, 5 + 11 * i) && e.y == ReadUint32(b, 5 + 11 * i + 4)
    ensures 5 + 11 * i + 11 <= |b| ==> e.color == b[5 + 11 * i + 8..5 + 11 * i + 11]
    ensures 5 + 11 * i + 11 > |b| ==> e.color == b[5 + 11 * i + 8..]
  {
    var pos := 5 + 11 * i;
    // `subarray(pos + 8, pos + 11)` is cut short at the end of the buffer
    var end := if pos + 11 <= |b| then pos + 11 else |b|;
    PixelEvent(ReadUint32(b, pos), ReadUint32(b, pos + 4), b[pos + 8..end])
  }

  /** Records 0 .. n-1 in index order. */
  function Records(b: seq<Byte>, n: nat): (r: seq<PixelEvent>)
    requires n == 0 || 5 + 11 * (n - 1) + 8 <= |b|
    ensures |r| == n
  {
    if n == 0 then [] else Records(b, n - 1) + [RecordAt(b, n - 1)]
  }

  /** Element i of `Records(b, n)` is record i. */
  lemma {:induction false} RecordsAt(b: seq<Byte>, n: nat)
    requires n == 0 || 5 + 11 * (n - 1) + 8 <= |b|
    ensures forall i :: 0 <= i < n ==> Records(b, n)[i] == RecordAt(b, i)
  {
    if n > 0 {
      RecordsAt(b, n - 1);
    }
  }

  /**
   * How many records the loop `for (i = 0; i < (len - 5) / 11; i++)` paints: every
   * whole record, plus a trailing partial one when it still holds x and y (with
   * fewer bytes `getUint32` throws and the loop stops).
   */
  function EventCount(b: seq<Byte>): (n: nat)
    ensures n == 0 || 5 + 11 * (n - 1) + 8 <= |b|
  {
    if |b| < HeaderSize then 0
    else
      var k, r := (|b| - 5) / 11, (|b| - 5) % 11;
      if r >= 8 then k + 1 else k
  }

  /** The events a type-1 response paints; every other response paints none. */
  function BatchEvents(b: seq<Byte>): seq<PixelEvent>
  {
    if |b| >= HeaderSize && b[4] == ResponseTypeEvents then Records(b, EventCount(b)) else []
  }

  /** A well-formed events response (length 5 + 11k) paints exactly its k records. */
  lemma WholeRecords(b: seq<Byte>)
    requires |b| >= HeaderSize && b[4] == ResponseTypeEvents && (|b| - 5) % 11 == 0
    ensures |BatchEvents(b)| == (|b| - 5) / 11
    ensures forall i :: 0 <= i < |BatchEvents(b)| ==>
              5 + 11 * i + 11 <= |b| &&
              BatchEvents(b)[i] == PixelEvent(ReadUint32(b, 5 + 11 * i), ReadUint32(b, 5 + 11 * i + 4),
                                              b[5 + 11 * i + 8..5 + 11 * i + 11])
  {
    RecordsAt(b, EventCount(b));
  }

  /** The events a response that carries an image, or an unknown type, paints: none. */
  lemma NoEventsUnlessType1(b: seq<Byte>)
    requires |b| < HeaderSize || b[4] != ResponseTypeEvents
    ensures BatchEvents(b) == []
  {
  }

  /** The bytes of `es`, encoded one after the other. */
  function EncodeAll(es: seq<PixelEvent>): (r: seq<Byte>)
    ensures |r| == 11 * |es|
  {
    if es == [] then []
    else
      var last := es[|es| - 1];
      EncodeLayout(last.x, last.y, last.color);
      EncodeAll(es[..|es| - 1]) + EncodeEvent(last.x, last.y, last.color)
  }

  /** Event i of `EncodeAll(es)` occupies bytes 11i .. 11i+10. */
  lemma {:induction false} EncodeAllAt(es: seq<PixelEvent>, i: nat)
    requires i < |es|
    ensures EncodeAll(es)[11 * i..11 * i + 11] == EncodeEvent(es[i].x, es[i].y, es[i].color)
  {
    var init, last := es[..|es| - 1], es[|es| - 1];
    assert EncodeAll(es) == EncodeAll(init) + EncodeEvent(last.x, last.y, last.color);
    if i < |es| - 1 {
      EncodeAllAt(init, i);
      assert init[i] == es[i];
    }
  }

  /** The type-1 response with id `id` carrying `es`, as a batching server would build it. */
  function BatchBytes(id: int, es: seq<PixelEvent>): (r: seq<Byte>)
    ensures |r| == 5 + 11 * |es|
  {
    Uint32Bytes(id) + [ResponseTypeEvents as Byte] + EncodeAll(es)
  }

  /** Decoding a batch of canonical events gives back the id modulo 2^32 and the events. */
  lemma BatchRoundTrip(id: int, es: seq<PixelEvent>)
    requires forall i :: 0 <= i < |es| ==> Canonical(es[i])
    ensures ReadUint32(BatchBytes(id, es), 0) == id % Two32
    ensures BatchEvents(BatchBytes(id, es)) == es
  {
    var b := BatchBytes(id, es);
    assert b[0..4] == Uint32Bytes(id);
    ReadSameBytes(b, 0, Uint32Bytes(id), 0);
    ReadWrite(id);
    assert b[4] == ResponseTypeEvents;
    assert (|b| - 5) % 11 == 0;
    WholeRecords(b);
    var got := BatchEvents(b);
    forall i | 0 <= i < |es|
      ensures got[i] == es[i]
    {
      RecordOfBatch(id, es, i);
    }
  }

  /** Record i of a batch is event i. */
  lemma RecordOfBatch(id: int, es: seq<PixelEvent>, i: nat)
    requires i < |es| && Canonical(es[i])
    ensures RecordAt(BatchBytes(id, es), i) == es[i]
  {
    BatchSlice(id, es, i);
    RecordOfSlice(BatchBytes(id, es), i, es[i]);
  }

  /** The bytes of record i of a batch are the encoding of event i. */
  lemma BatchSlice(id: int, es: seq<PixelEvent>, i: nat)
    requires i < |es|
    ensures 5 + 11 * i + 11 <= |BatchBytes(id, es)|
    ensures BatchBytes(id, es)[5 + 11 * i..5 + 11 * i + 11] == EncodeEvent(es[i].x, es[i].y, es[i].color)
  {
    var head := Uint32Bytes(id) + [ResponseTypeEvents as Byte];
    EncodeAllAt(es, i);
    assert BatchBytes(id, es) == head + EncodeAll(es);
    assert (head + EncodeAll(es))[|head| + 11 * i..|head| + 11 * i + 11] == EncodeAll(es)[11 * i..11 * i + 11];
  }

  /** A record whose 11 bytes are the encoding of a canonical event reads back as that event. */
  lemma RecordOfSlice(b: seq<Byte>, i: nat, e: PixelEvent)
    requires 5 + 11 * i + 11 <= |b| && Canonical(e)
    requires b[5 + 11 * i..5 + 11 * i + 11] == EncodeEvent(e.x, e.y, e.color)
    ensures RecordAt(b, i) == e
  {
    var enc := EncodeEvent(e.x, e.y, e.color);
    var pos := 5 + 11 * i;
    var slice := b[pos..pos + 11];
    EncodeLayout(e.x, e.y, e.color);
    RoundTrip(e);
    assert b[pos..pos + 4] == slice[0..4] == enc[0..4];
    assert b[pos + 4..pos + 8] == slice[4..8] == enc[4..8];
    assert b[pos + 8..pos + 11] == slice[8..11] == enc[8..];
    ReadSameBytes(b, pos, enc, 0);
    ReadSameBytes(b, pos + 4, enc, 4);
  }

  /** Where the loop of `handleResponse` stops: at `EventCount`, whether by its bound or a throw. */
  lemma LoopStops(b: seq<Byte>, i: nat)
    requires |b| >= HeaderSize && i <= EventCount(b)
    requires 11 * i >= |b| - 5 || 5 + 11 * i + 8 > |b|
    ensures i == EventCount(b)
  {
  }

  /** A record that still holds x and y lies below `EventCount`. */
  lemma LoopStep(b: seq<Byte>, i: nat)
    requires |b| >= HeaderSize && 11 * i < |b| - 5 && 5 + 11 * i + 8 <= |b|
    ensures i + 1 <= EventCount(b)
  {
  }

  /** Painting the records up to i + 1 is painting those up to i, then record i. */
  lemma PaintsNextRecord(b: seq<Byte>, i: nat)
    requires 5 + 11 * i + 8 <= |b|
    ensures Paints(Records(b, i + 1)) == Paints(Records(b, i)) + [Paint(RecordAt(b, i).x, RecordAt(b, i).y, RecordAt(b, i).color)]
  {
    PaintsSnoc(Records(b, i), RecordAt(b, i));
  }

  class Place {
    /** The id of the last response, sent back as `?i=` on the next poll. */
    var lastEventId: int
    /** The calls made on the GL window, in order. */
    var surface: seq<SurfaceOp>
    /** The snapshot handed to `setImage` whose `onload` has not fired yet. */
    var pendingImage: Option<seq<Byte>>
    /** The bodies of the PUT requests, in order. */
    var sent: seq<seq<Byte>>

    constructor ()
      ensures lastEventId == -1 && surface == [] && pendingImage == None && sent == []
    {
      lastEventId := -1;
      surface := [];
      pendingImage := None;
      sent := [];
    }

    /**
     * `handleResponse`: the id first (fewer than 4 bytes throw before anything
     * changes), then the switch on byte 4 (undefined on a 4-byte response, which
     * matches no case).
     */
    method HandleResponse(b: seq<Byte>)
      modifies this`lastEventId, this`surface, this`pendingImage
      ensures lastEventId == if |b| >= 4 then ReadUint32(b, 0) else old(lastEventId)
      ensures pendingImage == if |b| >= HeaderSize && b[4] == ResponseTypeImage then Some(b[5..]) else old(pendingImage)
      ensures surface == old(surface) + Paints(BatchEvents(b))
    {
      if |b| < 4 {
        return;
      }
      lastEventId := ReadUint32(b, 0);
      if |b| < HeaderSize {
        return;
      }
      if b[4] == ResponseTypeImage {
        pendingImage := Some(b[HeaderSize..]);
      } else if b[4] == ResponseTypeEvents {
        PaintRecords(b);
      }
    }

    /** `for (i = 0; i < (b.length - 5) / 11; i++)`: paint record i, until a read throws. */
    method PaintRecords(b: seq<Byte>)
      requires |b| >= HeaderSize
      modifies this`surface
      ensures surface == old(surface) + Paints(Records(b, EventCount(b)))
    {
      ghost var n := EventCount(b);
      var i := 0;
      // getUint32 past the end throws: a partial record without x and y ends the loop
      while 11 * i < |b| - 5 && 5 + 11 * i + 8 <= |b|
        invariant 0 <= i <= n
        invariant surface == old(surface) + Paints(Records(b, i))
      {
        LoopStep(b, i);
        PaintsNextRecord(b, i);
        PaintRecord(b, i);
        i := i + 1;
      }
      LoopStops(b, i);
    }

    /** One round of the loop: paint record i, which still holds x and y. */
    method PaintRecord(b: seq<Byte>, i: nat)
      requires 5 + 11 * i + 8 <= |b|
      modifies this`surface
      ensures surface == old(surface) + [Paint(RecordAt(b, i).x, RecordAt(b, i).y, RecordAt(b, i).color)]
    {
      var e := RecordAt(b, i);
      surface := surface + [Paint(e.x, e.y, e.color)];
    }

    /** The image's `onload`: `glWindow.setTexture(img)`. */
    method ImageOnload()
      requires pendingImage.Some?
      modifies this`surface, this`pendingImage
      ensures pendingImage == None
      ensures surface == old(surface) + [LoadImage(old(pendingImage).value)]
    {
      surface := surface + [LoadImage(pendingImage.value)];
      pendingImage := None;
    }

    /**
     * `put`: an 11-byte buffer with x and y through `setUint32` and `b[i + 8] = color[i]`
     * for every colour byte (writes past index 10 of a Uint8Array are dropped).
     */
    method Put(x: int, y: int, color: seq<Byte>)
      modifies this`sent
      ensures sent == old(sent) + [EncodeEvent(x, y, color)]
    {
      var buf := new Byte[EventSize];
      var xs, ys := Uint32Bytes(x), Uint32Bytes(y);
      buf[0], buf[1], buf[2], buf[3] := xs[0], xs[1], xs[2], xs[3];
      buf[4], buf[5], buf[6], buf[7] := ys[0], ys[1], ys[2], ys[3];
      buf[8], buf[9], buf[10] := 0, 0, 0;
      ghost var head := buf[..8];
      forall j | 0 <= j < 8 ensures head[j] == (xs + ys)[j] {
        if j < 4 { assert (xs + ys)[j] == xs[j]; } else { assert (xs + ys)[j] == ys[j - 4]; }
      }
      assert head == xs + ys;
      for i := 0 to |color|
        modifies buf
        invariant buf[..8] == head
        invariant buf[8] == if 0 < i then color[0] else 0
        invariant buf[9] == if 1 < i then color[1] else 0
        invariant buf[10] == if 2 < i then color[2] else 0
      {
        if i + 8 < EventSize {
          buf[i + 8] := color[i];
        }
      }
      var b := buf[..];
      assert buf[8] == ByteAt(color, 0) && buf[9] == ByteAt(color, 1) && buf[10] == ByteAt(color, 2);
      assert b == buf[..8] + [buf[8], buf[9], buf[10]];
      sent := sent + [b];
    }
  }
}
