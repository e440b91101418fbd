/**
 * `PlaceServer` of place.go, the polling server: an `rgbImage` canvas with its
 * encoded-PNG cache, and a window of the last `history` placements with the
 * number `current` of placements so far. A client that knows state `id` gets the
 * placements after it when they are still in the window, the whole image
 * otherwise. A PNG encoding is represented by the canvas bytes it encodes, and
 * a JSON or base64 decoding by its result.
 */
module HistoryServer {
  import opened Common
  import opened Raster
  import RgbImage

  /** `event`: a pixel and its colour bytes as the client sent them, in base64. */
  datatype Event = Event(x: int, y: int, data: string)

  /** What `handleGet` writes back: the image, the events, or nothing when the slice panics. */
  datatype Answer = ImageAnswer(id: int, image: seq<Byte>) | EventsAnswer(id: int, events: seq<Event>) | Panic

  /** The zero events `make([]event, history)` starts the window with. */
  function Blank(n: nat): (r: seq<Event>)
    ensures |r| == n && forall i :: 0 <= i < n ==> r[i] == Event(0, 0, "")
  {
    seq(n, _ => Event(0, 0, ""))
  }

  /** The last n elements of s. */
  function Last<T>(s: seq<T>, n: nat): (r: seq<T>)
    requires n <= |s|
    ensures |r| == n && forall i :: 0 <= i < n ==> r[i] == s[|s| - n + i]
  {
    s[|s| - n..]
  }

  /** The test `handleGet` makes at place.go:65, as written: when to answer with the image. */
  predicate ServesImageAsWritten(id: int, current: int, window: nat)
  {
    id < 0 || id >= current || id + 1 < current - window
  }

  /** The test the window supports: the image unless every placement after id is still held. */
  predicate ServesImage(id: int, current: int, window: nat)
  {
    id < 0 || id >= current || id < current - window
  }

  /**
   * As written the test lets through the one id per state whose events start just
   * before the window: one history slot, three placements, and a client at state 1
   * asks for two events from a window of one.
   */
  lemma GuardAdmitsOneTooMany()
    ensures !ServesImageAsWritten(1, 3, 1) && 3 - 1 > 1
    ensures forall id, current, window: nat :: current - window - 1 == id >= 0 ==>
              !ServesImageAsWritten(id, current, window) && current - id == window + 1
  {
  }

  /** Past the corrected test, the count `eventsData` slices off is between 1 and the window length. */
  lemma EventsFitWindow(id: int, current: int, window: nat)
    requires !ServesImage(id, current, window)
    ensures 0 < current - id <= window
  {
  }

  /** The two tests differ exactly at id = current - window - 1. */
  lemma GuardsDifferByOne(id: int, current: int, window: nat)
    ensures ServesImageAsWritten(id, current, window) != ServesImage(id, current, window)
        <==> id == current - window - 1 && 0 <= id < current
  {
  }

  /** The last few placements of a log, once padded with the blank window. */
  lemma {:induction false} WindowTail(log: seq<Event>, n: nat, id: nat)
    requires id <= |log| && |log| - id <= n
    ensures Last(Last(Blank(n) + log, n), |log| - id) == log[id..]
  {
    var s := Blank(n) + log;
    var w := Last(s, n);
    var t := Last(w, |log| - id);
    assert |t| == |log[id..]|;
    forall i | 0 <= i < |t| ensures t[i] == log[id..][i] {
      assert t[i] == w[n - (|log| - id) + i];
      assert w[n - (|log| - id) + i] == s[|s| - n + n - (|log| - id) + i];
      assert |s| - n + n - (|log| - id) + i == n + id + i;
    }
  }

  /** The window after one more placement: the oldest falls out, the new one is last. */
  lemma {:induction false} WindowShift(log: seq<Event>, n: nat, e: Event)
    requires n > 0
    ensures Last(Blank(n) + (log + [e]), n) == Last(Blank(n) + log, n)[1..] + [e]
  {
    var s := Blank(n) + log;
    assert Blank(n) + (log + [e]) == s + [e];
    var a := Last(s + [e], n);
    var b := Last(s, n)[1..] + [e];
    assert |a| == |b|;
    forall i | 0 <= i < n ensures a[i] == b[i] {
      if i < n - 1 {
        assert a[i] == (s + [e])[|s| + 1 - n + i];
        assert b[i] == Last(s, n)[i + 1] == s[|s| - n + i + 1];
      }
    }
  }

  class PlaceServer {
    const img: RgbImage.RgbImage
    /** `len(sv.events)`, fixed by `make([]event, history)`. */
    const history: nat
    var events: seq<Event>
    var current: int
    /** `imgBuf`: nil, or the canvas bytes it was encoded from. */
    var imgBuf: Option<seq<Byte>>
    /** Every placement accepted so far, oldest first (none are counted when history == 0). */
    ghost var log: seq<Event>

    /**
     * The window holds the last `history` entries of the blank start followed by
     * the log, `current` counts the log, and the cache is coherent.
     */
    ghost predicate Valid()
      reads this, img, img.pixels
    {
      img.Valid() &&
      |events| == history &&
      (imgBuf.Some? ==> imgBuf.value == img.pixels[..]) &&
      (history > 0 ==> current == |log| && events == Last(Blank(history) + log, history)) &&
      (history == 0 ==> current == 0 && log == [])
    }

    /** `NewPlaceServer`: a fresh opaque-black canvas and a window of blank events. */
    constructor (width: int, height: int, history: nat)
      requires width * height >= 0
      ensures Valid() && fresh(img) && fresh(img.pixels)
      ensures img.width == width && img.height == height && this.history == history
      ensures events == Blank(history) && current == 0 && log == [] && imgBuf == None
    {
      img := new RgbImage.RgbImage(width, height);
      this.history := history;
      events := Blank(history);
      current := 0;
      imgBuf := None;
      log := [];
      new;
      assert Blank(history) + [] == Blank(history);
    }

    /** `dimsOk`. */
    function DimsOk(x: int, y: int): (ok: bool)
      reads this, img
      ensures ok <==> InBounds(x, y, img.width, img.height)
    {
      0 <= x && x < img.width && 0 <= y && y < img.height
    }

    /**
     * `handlePut`: 400 when the JSON does not decode, the pixel is off the canvas
     * or the data is not base64; otherwise copy the bytes in at (w*Y + X)*4, drop
     * the cache and, with a history, shift the window and count the placement.
     */
    method HandlePut(e: Option<Event>, data: Option<seq<Byte>>) returns (status: int)
      requires Valid()
      modifies img.pixels, this`events, this`current, this`imgBuf, this`log
      ensures Valid()
      ensures status == 200 <==> e.Some? && DimsOk(e.value.x, e.value.y) && data.Some?
      ensures status != 200 ==> status == 400 && img.pixels[..] == old(img.pixels[..]) &&
                                events == old(events) && current == old(current) && imgBuf == old(imgBuf) &&
                                log == old(log)
      ensures status == 200 ==>
                0 <= PixelBase(e.value.x, e.value.y, img.width, 4) <= img.pixels.Length &&
                img.pixels[..] == CopyInto(old(img.pixels[..]), PixelBase(e.value.x, e.value.y, img.width, 4), data.value) &&
                imgBuf == None
      ensures status == 200 && history > 0 ==>
                events == old(events)[1..] + [e.value] && current == old(current) + 1 && log == old(log) + [e.value]
      ensures status == 200 && history == 0 ==> events == [] && current == 0
    {
      if e.None? || !DimsOk(e.value.x, e.value.y) {
        return 400;
      }
      if data.None? {
        return 400;
      }
      var ev := e.value;
      PixelInBuffer(ev.x, ev.y, img.width, img.height, 4);
      Copy(img.pixels, PixelBase(ev.x, ev.y, img.width, 4), data.value);
      imgBuf := None;
      if |events| > 0 {
        WindowShift(log, history, ev);
        events := events[1..] + [ev];
        current := current + 1;
        log := log + [ev];
      }
      return 200;
    }

    /** `imageData`: the cached encoding (made now when there is none), labelled with `current`. */
    method ImageData() returns (a: Answer)
      requires Valid()
      modifies this`imgBuf
      ensures Valid()
      ensures a == ImageAnswer(current, img.pixels[..]) && imgBuf == Some(img.pixels[..])
    {
      if imgBuf.None? {
        imgBuf := Some(img.pixels[..]);
      }
      a := ImageAnswer(current, imgBuf.value);
    }

    /** `ServeImage`: the cached encoding, made from the canvas when there is none. */
    method ServeImage() returns (png: seq<Byte>)
      requires Valid()
      modifies this`imgBuf
      ensures Valid()
      ensures png == img.pixels[..] && imgBuf == Some(png)
      ensures old(imgBuf).Some? ==> png == old(imgBuf).value
    {
      if imgBuf.None? {
        imgBuf := Some(img.pixels[..]);
      }
      png := imgBuf.value;
    }

    /** `eventsData`: the last current - id events, labelled with `current`; the slice panics past the window. */
    function EventsData(id: int): (a: Answer)
      reads this
      ensures a.Panic? <==> !(0 <= current - id <= |events|)
      ensures a.EventsAnswer? ==> a.id == current && a.events == Last(events, current - id)
    {
      if 0 <= current - id <= |events| then EventsAnswer(current, Last(events, current - id)) else Panic
    }

    /**
     * `handleGet` as written (the long-poll wait left out): a parse failure reads as
     * id 0; the image unless the test at place.go:65 sends the client to `eventsData`.
     */
    method HandleGetAsWritten(query: Option<int>) returns (a: Answer)
      requires Valid()
      modifies this`imgBuf
      ensures Valid()
      ensures var id := if query.Some? then query.value else 0;
              (ServesImageAsWritten(id, current, history) ==> a == ImageAnswer(current, img.pixels[..])) &&
              (!ServesImageAsWritten(id, current, history) ==> a == EventsData(id) && imgBuf == old(imgBuf))
    {
      var id := if query.Some? then query.value else 0;
      if id < 0 || id >= current || id + 1 < current - |events| {
        a := ImageData();
      } else {
        a := EventsData(id);
      }
    }

    /**
     * `handleGet` with the corrected test: a client at state id gets exactly the
     * placements it has not seen, or the image when they are no longer all held.
     */
    method HandleGet(query: Option<int>) returns (a: Answer)
      requires Valid()
      modifies this`imgBuf
      ensures Valid()
      ensures var id := if query.Some? then query.value else 0;
              (ServesImage(id, current, history) ==> a == ImageAnswer(current, img.pixels[..])) &&
              (!ServesImage(id, current, history) ==>
                 imgBuf == old(imgBuf) && a == EventsAnswer(current, log[id..]))
      ensures !a.Panic?
    {
      var id := if query.Some? then query.value else 0;
      if id < 0 || id >= current || id < current - |events| {
        a := ImageData();
      } else {
        EventsFitWindow(id, current, history);
        WindowTail(log, history, id);
        a := EventsData(id);
      }
    }
  }
}
