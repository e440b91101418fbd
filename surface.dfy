/**
 * The GL window seen from the sync code: a log of the calls it receives.
 * `setTexture` replaces the whole texture; `setPixelColor` / `placePixel`
 * paints one pixel of the texture currently bound (with no texture bound the
 * call has no effect).
 */
module CanvasSurface {
  import opened Common
  import opened PixelWire

  datatype SurfaceOp = LoadImage(image: seq<Byte>) | Paint(x: int, y: int, color: seq<Byte>)

  predicate HasTexture(ops: seq<SurfaceOp>)
  {
    exists i :: 0 <= i < |ops| && ops[i].LoadImage?
  }

  /** The paint calls for a sequence of events, in order. */
  function Paints(es: seq<PixelEvent>): (r: seq<SurfaceOp>)
    ensures |r| == |es|
    ensures forall i :: 0 <= i < |es| ==> r[i] == Paint(es[i].x, es[i].y, es[i].color)
  {
    if es == [] then [] else Paints(es[..|es| - 1]) + [Paint(es[|es| - 1].x, es[|es| - 1].y, es[|es| - 1].color)]
  }

  /** One more event appends one more paint call. */
  lemma PaintsSnoc(es: seq<PixelEvent>, e: PixelEvent)
    ensures Paints(es + [e]) == Paints(es) + [Paint(e.x, e.y, e.color)]
  {
    assert (es + [e])[..|es|] == es;
  }

  /** The pixel updates that show on the current texture: the paints after the last load. */
  function Visible(ops: seq<SurfaceOp>): seq<PixelEvent>
  {
    if ops == [] then []
    else
      var prefix := ops[..|ops| - 1];
      match ops[|ops| - 1]
      case LoadImage(_) => []
      case Paint(x, y, c) => if HasTexture(prefix) then Visible(prefix) + [PixelEvent(x, y, c)] else []
  }

  /** Paints made after a texture load all show, in the order they were made. */
  lemma {:induction false} VisibleAfterLoad(ops: seq<SurfaceOp>, image: seq<Byte>, es: seq<PixelEvent>)
    ensures Visible(ops + [LoadImage(image)] + Paints(es)) == es
  {
    var base := ops + [LoadImage(image)];
    if es == [] {
      assert base + Paints(es) == base;
    } else {
      var init, last := es[..|es| - 1], es[|es| - 1];
      VisibleAfterLoad(ops, image, init);
      var whole := base + Paints(es);
      assert Paints(es) == Paints(init) + [Paint(last.x, last.y, last.color)];
      assert whole == (base + Paints(init)) + [Paint(last.x, last.y, last.color)];
      assert whole[..|whole| - 1] == base + Paints(init);
      assert (base + Paints(init))[|ops|].LoadImage?;
      assert es == init + [last];
    }
  }

  /** A texture load hides every paint made before it. */
  lemma LoadHidesEarlierPaints(ops: seq<SurfaceOp>, image: seq<Byte>)
    ensures Visible(ops + [LoadImage(image)]) == []
  {
  }

  /** Paints made while no texture was ever loaded have no visible effect. */
  lemma {:induction false} NoTextureNoPaint(ops: seq<SurfaceOp>, es: seq<PixelEvent>)
    requires !HasTexture(ops)
    ensures !HasTexture(ops + Paints(es))
    ensures Visible(ops + Paints(es)) == []
  {
    if es != [] {
      var init, last := es[..|es| - 1], es[|es| - 1];
      NoTextureNoPaint(ops, init);
      var whole := ops + Paints(es);
      assert Paints(es) == Paints(init) + [Paint(last.x, last.y, last.color)];
      assert whole == (ops + Paints(init)) + [Paint(last.x, last.y, last.color)];
      assert whole[..|whole| - 1] == ops + Paints(init);
    } else {
      assert ops + Paints(es) == ops;
    }
  }
}
