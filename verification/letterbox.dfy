/** The aspect-fit (letterbox) transform used by both export paths: the displayed image was
    fitted into the viewport without cropping, so a position the user chose on screen is
    mapped back into the pixel space of the full-size bitmap. Floats are read as reals. */
module Letterbox {

  /** The on-screen surface the boxes were placed on: its size as the layout measured it and
      the device density, by which the export multiplies every on-screen length. */
  datatype Viewport = Viewport(displayedWidth: int, displayedHeight: int, density: real)

  predicate ValidViewport(v: Viewport) {
    v.displayedWidth > 0 && v.displayedHeight > 0 && v.density > 0.0
  }

  /** Viewport width and height multiplied by the density, the space the export fits into. */
  function PixelWidth(v: Viewport): real { v.displayedWidth as real * v.density }
  function PixelHeight(v: Viewport): real { v.displayedHeight as real * v.density }

  /** Kotlin `minOf` on two (non-NaN) floats. */
  function Min(a: real, b: real): real { if a <= b then a else b }

  /** Scale of the fitted image and the centring margins, in density-multiplied units. */
  datatype Fit = Fit(scale: real, xOffset: real, yOffset: real)

  /** The letterbox scale: the smaller of the two axis ratios. */
  function FitScale(v: Viewport, bw: int, bh: int): (s: real)
    requires ValidViewport(v) && bw > 0 && bh > 0
    ensures s > 0.0
    ensures s == PixelWidth(v) / bw as real || s == PixelHeight(v) / bh as real
    ensures s <= PixelWidth(v) / bw as real && s <= PixelHeight(v) / bh as real
  {
    Min(PixelWidth(v) / bw as real, PixelHeight(v) / bh as real)
  }

  /** `a / b * b == a` and `a <= c / b ==> a * b <= c` for positive `b`. */
  lemma ScaleBack(a: real, b: real, c: real)
    requires b > 0.0
    ensures (c / b) * b == c
    ensures a <= c / b ==> a * b <= c
  {
  }

  /** At the letterbox scale the image fits inside the viewport on both axes and fills it
      on at least one. */
  lemma FitScaleFits(v: Viewport, bw: int, bh: int)
    requires ValidViewport(v) && bw > 0 && bh > 0
    ensures bw as real * FitScale(v, bw, bh) <= PixelWidth(v)
    ensures bh as real * FitScale(v, bw, bh) <= PixelHeight(v)
    ensures bw as real * FitScale(v, bw, bh) == PixelWidth(v) ||
            bh as real * FitScale(v, bw, bh) == PixelHeight(v)
  {
    var s := FitScale(v, bw, bh);
    ScaleBack(s, bw as real, PixelWidth(v));
    ScaleBack(s, bh as real, PixelHeight(v));
  }

  /** It is the largest such scale: any scale that fits on both axes is no larger. */
  lemma FitScaleIsLargest(v: Viewport, bw: int, bh: int, t: real)
    requires ValidViewport(v) && bw > 0 && bh > 0
    requires bw as real * t <= PixelWidth(v) && bh as real * t <= PixelHeight(v)
    ensures t <= FitScale(v, bw, bh)
  {
    var s := FitScale(v, bw, bh);
    FitScaleFits(v, bw, bh);
    if bw as real * s == PixelWidth(v) {
      assert bw as real * t <= bw as real * s;
    } else {
      assert bh as real * t <= bh as real * s;
    }
  }

  /** The full transform: the scale and the two centring offsets. */
  function AspectFit(v: Viewport, bw: int, bh: int): (f: Fit)
    requires ValidViewport(v) && bw > 0 && bh > 0
    ensures f.scale == FitScale(v, bw, bh)
    // centred: equal margins on both sides of the fitted image
    ensures 2.0 * f.xOffset + bw as real * f.scale == PixelWidth(v)
    ensures 2.0 * f.yOffset + bh as real * f.scale == PixelHeight(v)
    ensures f.xOffset >= 0.0 && f.yOffset >= 0.0
    ensures f.xOffset == 0.0 || f.yOffset == 0.0
  {
    var s := FitScale(v, bw, bh);
    FitScaleFits(v, bw, bh);
    Fit(s, (PixelWidth(v) - bw as real * s) / 2.0, (PixelHeight(v) - bh as real * s) / 2.0)
  }

  /** `((p * density) - offset) / scale`: an on-screen coordinate in bitmap pixels. */
  function ToImage(p: real, density: real, offset: real, scale: real): (q: real)
    requires scale > 0.0
    ensures q * scale + offset == p * density
  {
    (p * density - offset) / scale
  }

  /** The inverse map, from bitmap pixels back to on-screen layout pixels. */
  function ToScreen(q: real, density: real, offset: real, scale: real): (p: real)
    requires density > 0.0
    ensures p * density == q * scale + offset
  {
    (q * scale + offset) / density
  }

  /** The position map is invertible in both directions. */
  lemma ImageScreenRoundTrip(p: real, q: real, density: real, offset: real, scale: real)
    requires density > 0.0 && scale > 0.0
    ensures ToScreen(ToImage(p, density, offset, scale), density, offset, scale) == p
    ensures ToImage(ToScreen(q, density, offset, scale), density, offset, scale) == q
  {
    var q1 := ToImage(p, density, offset, scale);
    var p1 := ToScreen(q1, density, offset, scale);
    assert p1 * density == p * density;
    var p2 := ToScreen(q, density, offset, scale);
    var q2 := ToImage(p2, density, offset, scale);
    assert q2 * scale == q * scale;
  }

  /** The same viewport at density 1. */
  function AtUnitDensity(v: Viewport): Viewport {
    v.(density := 1.0)
  }

  /** Density is a common factor of the scale and both offsets. */
  lemma LetterboxScalesWithDensity(v: Viewport, bw: int, bh: int)
    requires ValidViewport(v) && bw > 0 && bh > 0
    ensures AspectFit(v, bw, bh).scale == v.density * AspectFit(AtUnitDensity(v), bw, bh).scale
    ensures AspectFit(v, bw, bh).xOffset == v.density * AspectFit(AtUnitDensity(v), bw, bh).xOffset
    ensures AspectFit(v, bw, bh).yOffset == v.density * AspectFit(AtUnitDensity(v), bw, bh).yOffset
  {
    var u := AtUnitDensity(v);
    var d := v.density;
    var a := v.displayedWidth as real;
    var b := v.displayedHeight as real;
    var w := bw as real;
    var h := bh as real;
    assert PixelWidth(v) / w == d * (a / w);
    assert PixelHeight(v) / h == d * (b / h);
    assert PixelWidth(u) / w == a / w;
    assert PixelHeight(u) / h == b / h;
    var s := FitScale(u, bw, bh);
    assert FitScale(v, bw, bh) == d * s;
    assert (a * d - w * (d * s)) / 2.0 == d * ((a - w * s) / 2.0);
    assert (b * d - h * (d * s)) / 2.0 == d * ((b - h * s) / 2.0);
  }

  /** A positive factor common to density, offset and scale cancels out of `ToImage`. */
  lemma CommonFactorCancels(p: real, d: real, offset: real, scale: real)
    requires d > 0.0 && scale > 0.0
    ensures ToImage(p, d, d * offset, d * scale) == ToImage(p, 1.0, offset, scale)
  {
    var q := ToImage(p, 1.0, offset, scale);
    assert (q * scale + offset) * d == p * d;
    assert q * (d * scale) + d * offset == p * d;
  }

  /** Density cancels: the bitmap position of a box does not depend on the density. */
  lemma ImagePositionIgnoresDensity(v: Viewport, bw: int, bh: int, x: real, y: real)
    requires ValidViewport(v) && bw > 0 && bh > 0
    ensures ToImage(x, v.density, AspectFit(v, bw, bh).xOffset, AspectFit(v, bw, bh).scale) ==
            ToImage(x, 1.0, AspectFit(AtUnitDensity(v), bw, bh).xOffset, AspectFit(AtUnitDensity(v), bw, bh).scale)
    ensures ToImage(y, v.density, AspectFit(v, bw, bh).yOffset, AspectFit(v, bw, bh).scale) ==
            ToImage(y, 1.0, AspectFit(AtUnitDensity(v), bw, bh).yOffset, AspectFit(AtUnitDensity(v), bw, bh).scale)
  {
    var f := AspectFit(v, bw, bh);
    var g := AspectFit(AtUnitDensity(v), bw, bh);
    LetterboxScalesWithDensity(v, bw, bh);
    ScaledFitCancels(f, g, v.density, x, y);
  }

  /** `CommonFactorCancels` on both axes of a fit that is `d` times another. */
  lemma ScaledFitCancels(f: Fit, g: Fit, d: real, x: real, y: real)
    requires d > 0.0 && g.scale > 0.0
    requires f == Fit(d * g.scale, d * g.xOffset, d * g.yOffset)
    ensures ToImage(x, d, f.xOffset, f.scale) == ToImage(x, 1.0, g.xOffset, g.scale)
    ensures ToImage(y, d, f.yOffset, f.scale) == ToImage(y, 1.0, g.yOffset, g.scale)
  {
    CommonFactorCancels(x, d, g.xOffset, g.scale);
    CommonFactorCancels(y, d, g.yOffset, g.scale);
  }

  /** A 1000 x 800 viewport at density 1 showing a 500 x 400 bitmap: scale 2, no margins,
      and the on-screen point (100, 100) lands on bitmap pixel (50, 50). */
  lemma LetterboxExample()
    ensures var v := Viewport(1000, 800, 1.0);
            var f := AspectFit(v, 500, 400);
            f == Fit(2.0, 0.0, 0.0) &&
            ToImage(100.0, 1.0, f.xOffset, f.scale) == 50.0 &&
            ToImage(100.0, 1.0, f.yOffset, f.scale) == 50.0
  {
    var v := Viewport(1000, 800, 1.0);
    assert PixelWidth(v) / 500.0 == 2.0;
    assert PixelHeight(v) / 400.0 == 2.0;
  }
}
