/**
 * Fit-and-centre of the template image on the canvas, done by the image-load
 * callback of the editor: one scale factor, the smaller of the two axis
 * ratios, is applied to both axes, and the scaled image is offset so that it
 * sits in the middle of the canvas. The arithmetic is exact (`real`), an
 * idealisation of the IEEE doubles the browser uses.
 */
module Layout {

  /** Where the background is drawn: the uniform scale and the top-left corner. */
  datatype Placement = Placement(scale: real, left: real, top: real)

  function Min(a: real, b: real): (m: real)
    ensures m <= a && m <= b && (m == a || m == b)
  {
    if a <= b then a else b
  }

  /** `w / d * d == w` stated once, so that the solver does not have to find it. */
  lemma DivMul(w: real, d: real)
    requires d > 0.0
    ensures d * (w / d) == w
  {
  }

  /** If `s` is at most `w / d`, then `d * s` is at most `w`, and conversely. */
  lemma BelowRatio(w: real, d: real, s: real)
    requires d > 0.0
    ensures s <= w / d <==> d * s <= w
  {
    DivMul(w, d);
    if s <= w / d {
      assert d * s <= d * (w / d);
    } else {
      assert d * (w / d) < d * s;
    }
  }

  /** If `d` scaled by `a` reaches a bound above `d`, then `a` is above one. */
  lemma AboveOne(d: real, a: real, bound: real)
    requires d > 0.0 && d * a >= bound && bound > d
    ensures a > 1.0
  {
    if a <= 1.0 {
      assert d * a - d == d * (a - 1.0);
    }
  }

  /** If `d` scaled by `a` stays within a bound below `d`, then `a` is below one. */
  lemma BelowOne(d: real, a: real, bound: real)
    requires d > 0.0 && d * a <= bound && bound < d
    ensures a < 1.0
  {
    if a >= 1.0 {
      assert d * a - d == d * (a - 1.0);
    }
  }

  /**
   * The placement of an `iw` x `ih` image on a `cw` x `ch` canvas. The source
   * divides by the image's dimensions without a guard, so they must be positive.
   */
  function FitAndCentre(cw: real, ch: real, iw: real, ih: real): Placement
    requires iw > 0.0 && ih > 0.0
  {
    var scaleX := cw / iw;
    var scaleY := ch / ih;
    var scale := Min(scaleX, scaleY);
    Placement(scale, (cw - iw * scale) / 2.0, (ch - ih * scale) / 2.0)
  }

  /**
   * The scale is one of the two axis ratios and at most both: the scaled image
   * fits inside the canvas and fills it exactly along at least one axis.
   */
  lemma FitContains(cw: real, ch: real, iw: real, ih: real)
    requires cw > 0.0 && ch > 0.0 && iw > 0.0 && ih > 0.0
    ensures var p := FitAndCentre(cw, ch, iw, ih);
            p.scale > 0.0 &&
            iw * p.scale <= cw && ih * p.scale <= ch &&
            (iw * p.scale == cw || ih * p.scale == ch)
  {
    var scale := FitAndCentre(cw, ch, iw, ih).scale;
    BelowRatio(cw, iw, scale);
    BelowRatio(ch, ih, scale);
    DivMul(cw, iw);
    DivMul(ch, ih);
  }

  /** The scaled image is centred: equal margins on opposite sides, none of them negative. */
  lemma FitCentres(cw: real, ch: real, iw: real, ih: real)
    requires cw > 0.0 && ch > 0.0 && iw > 0.0 && ih > 0.0
    ensures var p := FitAndCentre(cw, ch, iw, ih);
            2.0 * p.left + iw * p.scale == cw && p.left >= 0.0 &&
            2.0 * p.top + ih * p.scale == ch && p.top >= 0.0
  {
    FitContains(cw, ch, iw, ih);
  }

  /** No uniform scale larger than the chosen one keeps the image inside the canvas. */
  lemma FitIsLargest(cw: real, ch: real, iw: real, ih: real, s: real)
    requires cw > 0.0 && ch > 0.0 && iw > 0.0 && ih > 0.0
    requires iw * s <= cw && ih * s <= ch
    ensures s <= FitAndCentre(cw, ch, iw, ih).scale
  {
    FitContains(cw, ch, iw, ih);
    BelowRatio(cw, iw, s);
    BelowRatio(ch, ih, s);
  }

  /** The scaled image has the aspect ratio of the original. */
  lemma AspectPreserved(cw: real, ch: real, iw: real, ih: real)
    requires cw > 0.0 && ch > 0.0 && iw > 0.0 && ih > 0.0
    ensures var p := FitAndCentre(cw, ch, iw, ih);
            (iw * p.scale) / (ih * p.scale) == iw / ih
  {
    FitContains(cw, ch, iw, ih);
  }

  /** An image smaller than the canvas on both axes is enlarged, not drawn at its own size. */
  lemma SmallImagesAreUpscaled(cw: real, ch: real, iw: real, ih: real)
    requires cw > 0.0 && ch > 0.0 && iw > 0.0 && ih > 0.0
    requires iw < cw && ih < ch
    ensures FitAndCentre(cw, ch, iw, ih).scale > 1.0
  {
    var p := FitAndCentre(cw, ch, iw, ih);
    FitContains(cw, ch, iw, ih);
    if iw * p.scale == cw {
      AboveOne(iw, p.scale, cw);
    } else {
      AboveOne(ih, p.scale, ch);
    }
  }

  /** An image larger than the canvas on some axis is shrunk. */
  lemma LargeImagesAreDownscaled(cw: real, ch: real, iw: real, ih: real)
    requires cw > 0.0 && ch > 0.0 && iw > 0.0 && ih > 0.0
    requires iw > cw || ih > ch
    ensures FitAndCentre(cw, ch, iw, ih).scale < 1.0
  {
    var p := FitAndCentre(cw, ch, iw, ih);
    FitContains(cw, ch, iw, ih);
    if iw > cw {
      BelowOne(iw, p.scale, cw);
    } else {
      BelowOne(ih, p.scale, ch);
    }
  }
}
