/**
 * The screen geometry shared by the two quad-based GL windows (web/root/glwindow.js
 * and root/js/glwindow.js), over the reals: the vertex shader maps a quad vertex
 * v in [-0.5, 0.5] to ((v * tex - cam) * zoom) / view + 0.5 per axis (before the
 * y flip into clip space), and `click` maps a point of the canvas back to texture
 * coordinates.
 */
module ViewMath {
  import opened Common

  /** `if (z < lo) z = lo; if (z > hi) z = hi;` */
  function Clamp(z: real, lo: real, hi: real): (r: real)
    requires lo <= hi
    ensures lo <= r <= hi
    ensures lo <= z <= hi ==> r == z
    ensures z < lo ==> r == lo
    ensures z > hi ==> r == hi
  {
    var z1 := if z < lo then lo else z;
    if z1 > hi then hi else z1
  }

  /** Clamping twice clamps once. */
  lemma ClampIdempotent(z: real, lo: real, hi: real)
    requires lo <= hi
    ensures Clamp(Clamp(z, lo, hi), lo, hi) == Clamp(z, lo, hi)
  {
  }

  /** The vertex shader along one axis, before the y flip: `((vert * tex_scale - cam) * zoom) / view_scale + 0.5`. */
  function ShaderAxis(v: real, tex: real, cam: real, zoom: real, view: real): real
    requires view != 0.0
  {
    ((v * tex - cam) * zoom) / view + 0.5
  }

  /** `a` of `click` along one axis: `((-0.5 * tex - cam) * zoom) / view + 0.5`. */
  function LowEdge(tex: real, cam: real, zoom: real, view: real): real
    requires view != 0.0
  {
    ((-0.5 * tex - cam) * zoom) / view + 0.5
  }

  /** `b` of `click` along one axis: `((0.5 * tex - cam) * zoom) / view + 0.5`. */
  function HighEdge(tex: real, cam: real, zoom: real, view: real): real
    requires view != 0.0
  {
    ((0.5 * tex - cam) * zoom) / view + 0.5
  }

  /** The remap of [lo, hi] onto [0, tex]: `(pos - a) / (b - a) * tex`. */
  function ClickAxis(p: real, lo: real, hi: real, tex: real): real
    requires hi != lo
  {
    (p - lo) / (hi - lo) * tex
  }

  /**
   * What `click` returns: nothing outside the box, otherwise the remapped point;
   * with no texture (scale 0) the box collapses and a point on it remaps to NaN.
   */
  datatype ClickOutcome = Miss | Hit(at: Point) | NotANumber

  /** `click` for a point (px, py) of a view `viewW` x `viewH` pixels. */
  function Click(px: real, py: real, texW: real, texH: real, camX: real, camY: real, zoom: real,
                 viewW: real, viewH: real): (r: ClickOutcome)
    requires viewW != 0.0 && viewH != 0.0
  {
    var nx, ny := px / viewW, py / viewH;
    var lowX, lowY := LowEdge(texW, camX, zoom, viewW), LowEdge(texH, camY, zoom, viewH);
    var highX, highY := HighEdge(texW, camX, zoom, viewW), HighEdge(texH, camY, zoom, viewH);
    if nx < lowX || ny < lowY || nx > highX || ny > highY then Miss
    else if highX == lowX || highY == lowY then NotANumber
    else Hit(Point(ClickAxis(nx, lowX, highX, texW), ClickAxis(ny, lowY, highY, texH)))
  }

  lemma DivSub(a: real, b: real, d: real)
    requires d != 0.0
    ensures a / d - b / d == (a - b) / d
  {
  }

  /** The shader is affine in v: the low edge plus (v + 0.5) times the box width. */
  lemma ShaderAffine(v: real, tex: real, cam: real, zoom: real, view: real)
    requires view != 0.0
    ensures ShaderAxis(v, tex, cam, zoom, view)
         == LowEdge(tex, cam, zoom, view) + (v + 0.5) * (tex * zoom / view)
    ensures HighEdge(tex, cam, zoom, view) == LowEdge(tex, cam, zoom, view) + tex * zoom / view
  {
    DivSub((v * tex - cam) * zoom, (-0.5 * tex - cam) * zoom, view);
    assert (v * tex - cam) * zoom - (-0.5 * tex - cam) * zoom == (v + 0.5) * (tex * zoom);
    assert (v + 0.5) * (tex * zoom) / view == (v + 0.5) * (tex * zoom / view);
    DivSub((0.5 * tex - cam) * zoom, (-0.5 * tex - cam) * zoom, view);
    assert (0.5 * tex - cam) * zoom - (-0.5 * tex - cam) * zoom == tex * zoom;
  }

  /** The box of `click` is the shader's image of the quad edges -0.5 and 0.5. */
  lemma EdgesAreQuadCorners(tex: real, cam: real, zoom: real, view: real)
    requires view != 0.0
    ensures LowEdge(tex, cam, zoom, view) == ShaderAxis(-0.5, tex, cam, zoom, view)
    ensures HighEdge(tex, cam, zoom, view) == ShaderAxis(0.5, tex, cam, zoom, view)
  {
  }

  /**
   * Along one axis, with positive scales: the shader puts v inside the box iff v is
   * on the quad, and `click`'s remap sends the shader's image of v to (v + 0.5) * tex.
   */
  lemma {:induction false} AxisInverse(v: real, tex: real, cam: real, zoom: real, view: real)
    requires tex > 0.0 && zoom > 0.0 && view > 0.0
    ensures LowEdge(tex, cam, zoom, view) < HighEdge(tex, cam, zoom, view)
    ensures (LowEdge(tex, cam, zoom, view) <= ShaderAxis(v, tex, cam, zoom, view) <= HighEdge(tex, cam, zoom, view))
        <==> -0.5 <= v <= 0.5
    ensures ClickAxis(ShaderAxis(v, tex, cam, zoom, view), LowEdge(tex, cam, zoom, view),
                      HighEdge(tex, cam, zoom, view), tex) == (v + 0.5) * tex
  {
    ShaderAffine(v, tex, cam, zoom, view);
    var s := tex * zoom / view;
    assert s > 0.0 by {
      assert tex * zoom > 0.0;
    }
    var t := v + 0.5;
    assert t * s >= 0.0 <==> t >= 0.0;
    assert t * s <= s <==> t <= 1.0 by {
      assert s - t * s == (1.0 - t) * s;
    }
    assert t * s / s == t;
  }

  /** A part of a positive length, over that length, is a fraction in [0, 1]. */
  lemma UnitRatio(a: real, s: real)
    requires s > 0.0 && 0.0 <= a <= s
    ensures 0.0 <= a / s <= 1.0
  {
    assert a / s * s == a;
  }

  /** Along one axis, every point of the box is the shader's image of a point of the quad. */
  lemma {:induction false} AxisOnto(p: real, tex: real, cam: real, zoom: real, view: real)
    requires tex > 0.0 && zoom > 0.0 && view > 0.0
    requires LowEdge(tex, cam, zoom, view) <= p <= HighEdge(tex, cam, zoom, view)
    ensures var v := ClickAxis(p, LowEdge(tex, cam, zoom, view), HighEdge(tex, cam, zoom, view), tex) / tex - 0.5;
            -0.5 <= v <= 0.5 && ShaderAxis(v, tex, cam, zoom, view) == p
  {
    var lo, hi := LowEdge(tex, cam, zoom, view), HighEdge(tex, cam, zoom, view);
    AxisInverse(0.0, tex, cam, zoom, view);
    var s := hi - lo;
    var t := (p - lo) / s;
    UnitRatio(p - lo, s);
    assert ClickAxis(p, lo, hi, tex) / tex == t;
    var v := t - 0.5;
    ShaderAffine(v, tex, cam, zoom, view);
    assert (v + 0.5) * s == p - lo;
  }

  /** Along one axis, the point n where the shader draws a quad point v is inside the box and remaps to (v + 0.5) * tex. */
  lemma AxisHit(v: real, tex: real, cam: real, zoom: real, view: real, n: real)
    requires tex > 0.0 && zoom > 0.0 && view > 0.0 && -0.5 <= v <= 0.5
    requires n == ShaderAxis(v, tex, cam, zoom, view) * view / view
    ensures LowEdge(tex, cam, zoom, view) <= n <= HighEdge(tex, cam, zoom, view)
    ensures LowEdge(tex, cam, zoom, view) < HighEdge(tex, cam, zoom, view)
    ensures ClickAxis(n, LowEdge(tex, cam, zoom, view), HighEdge(tex, cam, zoom, view), tex) == (v + 0.5) * tex
  {
    AxisInverse(v, tex, cam, zoom, view);
    var p := ShaderAxis(v, tex, cam, zoom, view);
    assert p * view / view == p;
    assert n == p;
  }

  /** Along one axis, a point of the box remaps into [0, tex]. */
  lemma AxisWithin(p: real, tex: real, cam: real, zoom: real, view: real)
    requires tex > 0.0 && zoom > 0.0 && view > 0.0
    requires LowEdge(tex, cam, zoom, view) <= p <= HighEdge(tex, cam, zoom, view)
    ensures LowEdge(tex, cam, zoom, view) < HighEdge(tex, cam, zoom, view)
    ensures 0.0 <= ClickAxis(p, LowEdge(tex, cam, zoom, view), HighEdge(tex, cam, zoom, view), tex) <= tex
  {
    AxisInverse(0.0, tex, cam, zoom, view);
    AxisOnto(p, tex, cam, zoom, view);
    var t := ClickAxis(p, LowEdge(tex, cam, zoom, view), HighEdge(tex, cam, zoom, view), tex) / tex;
    assert t * tex == ClickAxis(p, LowEdge(tex, cam, zoom, view), HighEdge(tex, cam, zoom, view), tex);
    assert 0.0 <= t <= 1.0;
    assert 0.0 <= t * tex <= tex;
  }

  /**
   * With a texture, a positive zoom and a positive view, `click` hits exactly the
   * points the shader draws the quad on, and returns the texture coordinates
   * ((vx + 0.5) * texW, (vy + 0.5) * texH) of the vertex drawn there.
   */
  lemma ClickInvertsShader(vx: real, vy: real, texW: real, texH: real, camX: real, camY: real, zoom: real,
                           viewW: real, viewH: real)
    requires texW > 0.0 && texH > 0.0 && zoom > 0.0 && viewW > 0.0 && viewH > 0.0
    requires -0.5 <= vx <= 0.5 && -0.5 <= vy <= 0.5
    ensures Click(ShaderAxis(vx, texW, camX, zoom, viewW) * viewW, ShaderAxis(vy, texH, camY, zoom, viewH) * viewH,
                  texW, texH, camX, camY, zoom, viewW, viewH)
         == Hit(Point((vx + 0.5) * texW, (vy + 0.5) * texH))
  {
    var nx, ny := ShaderAxis(vx, texW, camX, zoom, viewW) * viewW / viewW, ShaderAxis(vy, texH, camY, zoom, viewH) * viewH / viewH;
    var lowX, highX := LowEdge(texW, camX, zoom, viewW), HighEdge(texW, camX, zoom, viewW);
    var lowY, highY := LowEdge(texH, camY, zoom, viewH), HighEdge(texH, camY, zoom, viewH);
    AxisHit(vx, texW, camX, zoom, viewW, nx);
    AxisHit(vy, texH, camY, zoom, viewH, ny);
    assert !(nx < lowX || ny < lowY || nx > highX || ny > highY);
    assert !(highX == lowX || highY == lowY);
  }

  /** With positive scales, every hit lies in [0, texW] x [0, texH], and every miss is off the quad. */
  lemma ClickRange(px: real, py: real, texW: real, texH: real, camX: real, camY: real, zoom: real,
                   viewW: real, viewH: real)
    requires texW > 0.0 && texH > 0.0 && zoom > 0.0 && viewW > 0.0 && viewH > 0.0
    ensures Click(px, py, texW, texH, camX, camY, zoom, viewW, viewH) != NotANumber
    ensures Click(px, py, texW, texH, camX, camY, zoom, viewW, viewH).Hit? ==>
              var q := Click(px, py, texW, texH, camX, camY, zoom, viewW, viewH).at;
              0.0 <= q.x <= texW && 0.0 <= q.y <= texH
    ensures Click(px, py, texW, texH, camX, camY, zoom, viewW, viewH).Miss? <==>
              !(LowEdge(texW, camX, zoom, viewW) <= px / viewW <= HighEdge(texW, camX, zoom, viewW) &&
                LowEdge(texH, camY, zoom, viewH) <= py / viewH <= HighEdge(texH, camY, zoom, viewH))
  {
    AxisInverse(0.0, texW, camX, zoom, viewW);
    AxisInverse(0.0, texH, camY, zoom, viewH);
    var r := Click(px, py, texW, texH, camX, camY, zoom, viewW, viewH);
    if r.Hit? {
      AxisWithin(px / viewW, texW, camX, zoom, viewW);
      AxisWithin(py / viewH, texH, camY, zoom, viewH);
    }
  }

  /**
   * A 100 x 100 texture at zoom 1, camera at the origin, in a 100 x 100 view: the
   * quad fills the view, so the view's corner is on the box (the tests are strict)
   * and hits pixel (0, 0), while the centre hits (50, 50).
   */
  lemma CornerAndCentre()
    ensures Click(0.0, 0.0, 100.0, 100.0, 0.0, 0.0, 1.0, 100.0, 100.0) == Hit(Point(0.0, 0.0))
    ensures Click(50.0, 50.0, 100.0, 100.0, 0.0, 0.0, 1.0, 100.0, 100.0) == Hit(Point(50.0, 50.0))
  {
    assert LowEdge(100.0, 0.0, 1.0, 100.0) == 0.0;
    assert HighEdge(100.0, 0.0, 1.0, 100.0) == 1.0;
  }

  /** With no texture (scale 0, before `setTexture`), `click` never produces a point. */
  lemma NoTextureNoHit(px: real, py: real, camX: real, camY: real, zoom: real, viewW: real, viewH: real)
    requires viewW != 0.0 && viewH != 0.0
    ensures !Click(px, py, 0.0, 0.0, camX, camY, zoom, viewW, viewH).Hit?
  {
    assert LowEdge(0.0, camX, zoom, viewW) == HighEdge(0.0, camX, zoom, viewW);
  }

  /**
   * The integer a click coordinate becomes where the GUIs hand it on to
   * `setUint32` and the texture upload: JavaScript truncates toward zero.
   */
  function Truncate(r: real): (n: int)
    ensures r >= 0.0 ==> 0 <= n && n as real <= r < n as real + 1.0
    ensures r < 0.0 ==> n <= 0 && n as real - 1.0 < r <= n as real
  {
    if r >= 0.0 then r.Floor else -((-r).Floor)
  }

  /**
   * The pixel a non-empty click result names: a NaN coordinate converts to 0, a
   * hit truncates.
   */
  function TargetPixel(r: ClickOutcome): (p: (int, int))
    requires !r.Miss?
    ensures r.NotANumber? ==> p == (0, 0)
    ensures r.Hit? && 0.0 <= r.at.x && 0.0 <= r.at.y ==>
              p.0 == r.at.x.Floor && p.1 == r.at.y.Floor && 0 <= p.0 && 0 <= p.1
  {
    if r.Hit? then (Truncate(r.at.x), Truncate(r.at.y)) else (0, 0)
  }

  /**
   * A hit of a window with positive scales names a pixel of the texture, at most
   * one past its last column or row (the far edge of the box is inclusive).
   */
  lemma HitPixelInRange(px: real, py: real, texW: real, texH: real, camX: real, camY: real, zoom: real,
                        viewW: real, viewH: real)
    requires texW > 0.0 && texH > 0.0 && zoom > 0.0 && viewW > 0.0 && viewH > 0.0
    requires Click(px, py, texW, texH, camX, camY, zoom, viewW, viewH).Hit?
    ensures var p := TargetPixel(Click(px, py, texW, texH, camX, camY, zoom, viewW, viewH));
            0 <= p.0 && p.0 as real <= texW && 0 <= p.1 && p.1 as real <= texH
  {
    ClickRange(px, py, texW, texH, camX, camY, zoom, viewW, viewH);
  }

  /** z <= z * f and z / f <= z for a positive z and a factor of at least 1. */
  lemma FactorBounds(z: real, f: real)
    requires z > 0.0 && f >= 1.0
    ensures z <= z * f && z / f <= z && z / f > 0.0
    ensures z * f / f == z && z / f * f == z
  {
    assert z * f - z == z * (f - 1.0);
    assert z * (f - 1.0) >= 0.0;
    assert z - z / f == (z / f) * (f - 1.0);
  }

  /** Zooming in by f and back out by f restores the zoom when the first step stays within bounds. */
  lemma ZoomInOut(z: real, f: real, lo: real, hi: real)
    requires 0.0 < lo <= z <= hi && f >= 1.0 && z * f <= hi
    ensures Clamp(Clamp(z * f, lo, hi) / f, lo, hi) == z
  {
    FactorBounds(z, f);
  }

  /** Zooming out by f and back in by f restores the zoom when the first step stays within bounds. */
  lemma ZoomOutIn(z: real, f: real, lo: real, hi: real)
    requires 0.0 < lo <= z <= hi && f >= 1.0 && lo <= z / f
    ensures Clamp(Clamp(z / f, lo, hi) * f, lo, hi) == z
  {
    FactorBounds(z, f);
  }

  /** A zoom step by a factor of at least 1 never moves the zoom the wrong way. */
  lemma ZoomMonotone(z: real, f: real, lo: real, hi: real)
    requires 0.0 < lo <= z <= hi && f >= 1.0
    ensures z <= Clamp(z * f, lo, hi)
    ensures Clamp(z / f, lo, hi) <= z
  {
    FactorBounds(z, f);
  }
}
