/**
 * The scroll-based GL window of web/root/js/old/glwindow.js. The quad spans
 * [0, 1]^2 and the shader draws texture coordinate u at u * scale - cam (before the
 * y flip), where `scale` = texScale * zoom * 0.01 * fit / viewScale and `cam` =
 * camPos / viewScale; the zoom is a percentage in [1, 2000].
 */
module OldViewport {
  import opened Common
  import opened ViewMath
  import Viewport

  const MinPercent: real := 1.0
  const MaxPercent: real := 2000.0

  /** `calcFit`, with None for the non-finite value a zero texture height gives. */
  function CalcFit(viewW: real, viewH: real, texH: real): (r: Option<real>)
    ensures r.Some? <==> texH != 0.0
    ensures r.Some? && viewW > viewH ==> r.value * texH == viewH
    ensures r.Some? && viewW <= viewH ==> r.value * texH == viewW
  {
    if texH == 0.0 then None
    else if viewW > viewH then Some(viewH / texH) else Some(viewW / texH)
  }

  /**
   * Both branches of `calcFit` divide by the texture height: on a square texture it
   * fits the shorter side of the view, where the later window's fit takes the
   * longer one. The two agree only on a square view.
   */
  lemma CalcFitAgainstFitZoom(viewW: real, viewH: real, t: real)
    requires t > 0.0 && viewW > 0.0 && viewH > 0.0
    ensures CalcFit(viewW, viewH, t).value * t == if viewW > viewH then viewH else viewW
    ensures Viewport.FitZoom(viewW, viewH, t, t) * t == if viewW > viewH then viewW else viewH
    ensures CalcFit(viewW, viewH, t).value == Viewport.FitZoom(viewW, viewH, t, t) <==> viewW == viewH
  {
  }

  /** The factor of `updateScale` and `toScreenCoords` along one axis. */
  function ScaleFactor(tex: real, percent: real, fit: real, view: real): real
    requires view != 0.0
  {
    tex * percent * 0.01 * fit / view
  }

  /** `toTexCoords` along one axis: `(v * viewScale + camPos) / (texScale * zoom * 0.01 * fit)`. */
  function TexCoord(v: real, view: real, cam: real, tex: real, percent: real, fit: real): real
    requires tex * percent * 0.01 * fit != 0.0
  {
    (v * view + cam) / (tex * percent * 0.01 * fit)
  }

  /** `toScreenCoords` along one axis, as written: `v * texScale * zoom * 0.01 * fit / viewScale - camPos`. */
  function ScreenCoordAsWritten(u: real, view: real, cam: real, tex: real, percent: real, fit: real): real
    requires view != 0.0
  {
    u * tex * percent * 0.01 * fit / view - cam
  }

  /** Where the shader draws texture coordinate u: `vert * scale - cam`, with the uniforms `updateScale` and `scroll` set. */
  function ShaderCoord(u: real, view: real, cam: real, tex: real, percent: real, fit: real): real
    requires view != 0.0
  {
    u * ScaleFactor(tex, percent, fit, view) - cam / view
  }

  /** `toScreenCoords` as the shader draws: the camera is scaled by the view like the `cam` uniform. */
  function ScreenCoord(u: real, view: real, cam: real, tex: real, percent: real, fit: real): real
    requires view != 0.0
  {
    u * tex * percent * 0.01 * fit / view - cam / view
  }

  /** The corrected `toScreenCoords` is the shader's projection. */
  lemma ScreenCoordIsShader(u: real, view: real, cam: real, tex: real, percent: real, fit: real)
    requires view != 0.0
    ensures ScreenCoord(u, view, cam, tex, percent, fit) == ShaderCoord(u, view, cam, tex, percent, fit)
  {
    assert u * tex * percent * 0.01 * fit / view == u * (tex * percent * 0.01 * fit / view);
  }

  /** `toScreenCoords` inverts `toTexCoords` for every camera position. */
  lemma ScreenOfTex(v: real, view: real, cam: real, tex: real, percent: real, fit: real)
    requires view != 0.0 && tex * percent * 0.01 * fit != 0.0
    ensures ScreenCoord(TexCoord(v, view, cam, tex, percent, fit), view, cam, tex, percent, fit) == v
  {
    var d := tex * percent * 0.01 * fit;
    var u := TexCoord(v, view, cam, tex, percent, fit);
    assert u * tex * percent * 0.01 * fit == u * d;
    assert u * d == v * view + cam;
    assert (v * view + cam) / view == v + cam / view;
  }

  /** As written, the round trip is off by cam / view - cam, so it is exact only at cam = 0 (or a unit view). */
  lemma ScreenOfTexAsWritten(v: real, view: real, cam: real, tex: real, percent: real, fit: real)
    requires view != 0.0 && tex * percent * 0.01 * fit != 0.0
    ensures ScreenCoordAsWritten(TexCoord(v, view, cam, tex, percent, fit), view, cam, tex, percent, fit)
         == v + cam / view - cam
    ensures cam == 0.0 ==> ScreenCoordAsWritten(TexCoord(v, view, cam, tex, percent, fit), view, cam, tex, percent, fit) == v
  {
    ScreenOfTex(v, view, cam, tex, percent, fit);
  }

  /** A view 100 pixels wide scrolled by 10: the screen origin comes back as -9.9. */
  lemma ScreenOfTexCounterexample()
    ensures ScreenCoordAsWritten(TexCoord(0.0, 100.0, 10.0, 100.0, 100.0, 1.0), 100.0, 10.0, 100.0, 100.0, 1.0) == -9.9
  {
    ScreenOfTexAsWritten(0.0, 100.0, 10.0, 100.0, 100.0, 1.0);
  }

  class GLWindow {
    /** `viewScale`: the canvas's client size at the last `updateViewScale`. */
    var viewW: real
    var viewH: real
    /** `texScale`, 0 x 0 before the first `setTexture`. */
    var texW: real
    var texH: real
    /** `zoom`, a percentage. */
    var zoom: real
    /** `camPos`: the scroll offsets. */
    var camX: real
    var camY: real
    /** The `scale` and `cam` uniforms last set; None while the value set was not finite. */
    var scaleUniform: Option<Point>
    var camUniform: Option<Point>

    predicate Valid()
      reads this
    {
      MinPercent <= zoom <= MaxPercent
    }

    /** The `scale` uniform `updateScale` computes from the current state. */
    function ScaleNow(): (r: Option<Point>)
      reads this
      ensures r.Some? ==> viewW != 0.0 && viewH != 0.0 && texH != 0.0
    {
      match CalcFit(viewW, viewH, texH)
      case None => None
      case Some(fit) =>
        if viewW == 0.0 || viewH == 0.0 then None
        else Some(Point(ScaleFactor(texW, zoom, fit, viewW), ScaleFactor(texH, zoom, fit, viewH)))
    }

    /** The constructor: zero scales, then `setZoom(100)`. */
    constructor ()
      ensures Valid()
      ensures viewW == 0.0 && viewH == 0.0 && texW == 0.0 && texH == 0.0 && camX == 0.0 && camY == 0.0
      ensures zoom == 100.0 && scaleUniform == None && camUniform == None
    {
      viewW, viewH, texW, texH := 0.0, 0.0, 0.0, 0.0;
      camX, camY := 0.0, 0.0;
      zoom := 100.0;
      scaleUniform, camUniform := None, None;
    }

    /** `updateScale`. */
    method UpdateScale()
      modifies this`scaleUniform
      ensures scaleUniform == ScaleNow()
    {
      var fit := CalcFit(viewW, viewH, texH);
      if fit.None? || viewW == 0.0 || viewH == 0.0 {
        scaleUniform := None;
      } else {
        scaleUniform := Some(Point(texW * zoom * 0.01 * fit.value / viewW, texH * zoom * 0.01 * fit.value / viewH));
        assert scaleUniform.value == Point(ScaleFactor(texW, zoom, fit.value, viewW), ScaleFactor(texH, zoom, fit.value, viewH));
      }
    }

    /** `setZoom(percent)`: clamp to [1, 2000], then `updateScale`. */
    method SetZoom(percent: real)
      modifies this`zoom, this`scaleUniform
      ensures Valid()
      ensures zoom == Clamp(percent, MinPercent, MaxPercent)
      ensures scaleUniform == ScaleNow()
    {
      zoom := percent;
      if zoom < MinPercent {
        zoom := MinPercent;
      }
      if zoom > MaxPercent {
        zoom := MaxPercent;
      }
      UpdateScale();
    }

    /** `scroll`: camPos takes the scroll offsets; the `cam` uniform is camPos / viewScale. */
    method Scroll(scrollLeft: real, scrollTop: real)
      modifies this`camX, this`camY, this`camUniform
      ensures camX == scrollLeft && camY == scrollTop
      ensures viewW != 0.0 && viewH != 0.0 ==> camUniform == Some(Point(scrollLeft / viewW, scrollTop / viewH))
      ensures viewW == 0.0 || viewH == 0.0 ==> camUniform == None
    {
      camX, camY := scrollLeft, scrollTop;
      if viewW != 0.0 && viewH != 0.0 {
        camUniform := Some(Point(camX / viewW, camY / viewH));
      } else {
        camUniform := None;
      }
    }

    /** `updateViewScale`: viewScale takes the client size, then `updateScale`. */
    method UpdateViewScale(clientW: real, clientH: real)
      modifies this`viewW, this`viewH, this`scaleUniform
      ensures viewW == clientW && viewH == clientH
      ensures scaleUniform == ScaleNow()
    {
      viewW, viewH := clientW, clientH;
      UpdateScale();
    }

    /** `setTexture`: texScale takes the image size, then `updateViewScale`. */
    method SetTexture(imgW: real, imgH: real, clientW: real, clientH: real)
      modifies this`texW, this`texH, this`viewW, this`viewH, this`scaleUniform
      ensures texW == imgW && texH == imgH && viewW == clientW && viewH == clientH
      ensures scaleUniform == ScaleNow()
    {
      texW, texH := imgW, imgH;
      UpdateViewScale(clientW, clientH);
    }
  }

  /**
   * With the uniforms set from the current state, the shader draws texture point
   * `toTexCoords(v)` back at v: the scale uniform is the `toScreenCoords` factor, and
   * the corrected `toScreenCoords` lands where the shader draws.
   */
  lemma UniformsDrawTexCoordsAtScreen(w: GLWindow, vx: real, fit: real)
    requires w.scaleUniform == w.ScaleNow() && w.scaleUniform.Some?
    requires CalcFit(w.viewW, w.viewH, w.texH) == Some(fit)
    requires w.texW * w.zoom * 0.01 * fit != 0.0
    ensures w.scaleUniform.value.x == ScaleFactor(w.texW, w.zoom, fit, w.viewW)
    ensures ShaderCoord(TexCoord(vx, w.viewW, w.camX, w.texW, w.zoom, fit), w.viewW, w.camX, w.texW, w.zoom, fit) == vx
  {
    ScreenOfTex(vx, w.viewW, w.camX, w.texW, w.zoom, fit);
    ScreenCoordIsShader(TexCoord(vx, w.viewW, w.camX, w.texW, w.zoom, fit), w.viewW, w.camX, w.texW, w.zoom, fit);
  }
}
