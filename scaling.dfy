/**
 * The two scale rules of the editor, in exact real arithmetic.
 * A background is scaled to cover the canvas; an uploaded image is scaled to
 * fit inside 70% of it.
 */
module Scaling {

  /** Shrink factor applied to the fit scale of an uploaded image. */
  const FitShrink: real := 0.7

  /** `Math.max(cw / w, ch / h)`: the scaled image covers both canvas extents. */
  function CoverScale(cw: real, ch: real, w: real, h: real): (s: real)
    requires w > 0.0 && h > 0.0
    ensures s * w >= cw && s * h >= ch
    ensures s * w == cw || s * h == ch
  {
    var sx, sy := cw / w, ch / h;
    assert sx * w == cw && sy * h == ch;
    if sx >= sy then
      assert sx * h >= sy * h by { MulMonotone(sy, sx, h); }
      sx
    else
      assert sy * w >= sx * w by { MulMonotone(sx, sy, w); }
      sy
  }

  /** `Math.min(cw / w, ch / h) * 0.7`: the image fits inside 70% of both extents. */
  function FitScale(cw: real, ch: real, w: real, h: real): (s: real)
    requires w > 0.0 && h > 0.0
    ensures s * w <= FitShrink * cw && s * h <= FitShrink * ch
    ensures s * w == FitShrink * cw || s * h == FitShrink * ch
  {
    var sx, sy := cw / w, ch / h;
    assert sx * w == cw && sy * h == ch;
    if sx <= sy then
      assert sx * h <= sy * h by { MulMonotone(sx, sy, h); }
      assert (sx * FitShrink) * h == FitShrink * (sx * h);
      assert (sx * FitShrink) * w == FitShrink * (sx * w);
      sx * FitShrink
    else
      assert sy * w <= sx * w by { MulMonotone(sy, sx, w); }
      assert (sy * FitShrink) * h == FitShrink * (sy * h);
      assert (sy * FitShrink) * w == FitShrink * (sy * w);
      sy * FitShrink
  }

  lemma MulMonotone(a: real, b: real, c: real)
    requires a <= b && c >= 0.0
    ensures a * c <= b * c
  {
    assert b * c - a * c == (b - a) * c;
  }

  /** The cover scale is the smallest scale that covers the canvas. */
  lemma CoverScaleIsLeast(cw: real, ch: real, w: real, h: real, t: real)
    requires w > 0.0 && h > 0.0
    requires t * w >= cw && t * h >= ch
    ensures CoverScale(cw, ch, w, h) <= t
  {
  }

  /** The fit scale is the largest scale that keeps the image inside 70% of the canvas. */
  lemma FitScaleIsGreatest(cw: real, ch: real, w: real, h: real, t: real)
    requires w > 0.0 && h > 0.0
    requires t * w <= FitShrink * cw && t * h <= FitShrink * ch
    ensures t <= FitScale(cw, ch, w, h)
  {
  }

  /** On a canvas of positive size both scales are positive. */
  lemma ScalesPositive(cw: real, ch: real, w: real, h: real)
    requires cw > 0.0 && ch > 0.0 && w > 0.0 && h > 0.0
    ensures CoverScale(cw, ch, w, h) > 0.0 && FitScale(cw, ch, w, h) > 0.0
  {
  }
}
