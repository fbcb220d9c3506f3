/** The shared image geometry (engine/image_utils.py): the "contain" resize
    of an image into a box, and the offset that centres an image in a
    container. Images are their pixel sizes; the resize itself is left to the
    imaging library. */
module ImageUtils {
  import opened Common

  /** `fit_image_to_box`: the size the image is resized to. Without
      `maintain_aspect` it is stretched to the box; otherwise the side that
      binds is filled and the other follows the image's aspect ratio. */
  function FitToBox(srcW: Pos, srcH: Pos, maxW: int, maxH: int, maintainAspect: bool): (int, int)
    requires maintainAspect ==> maxH != 0
  {
    if !maintainAspect then (maxW, maxH)
    else Contain(srcW, srcH, maxW, maxH, maxW, maxH)
  }

  /** The aspect-keeping fit shared by the renderers: an image relatively
      wider than the box takes `sideW` columns, any other takes `sideH` rows,
      and the other side follows the image's aspect ratio, cut by `int()`.
      The contain fit uses the box's own sides; the placement engine
      inflates them first. */
  function Contain(srcW: Pos, srcH: Pos, boxW: int, boxH: int, sideW: int, sideH: int): (int, int)
    requires boxH != 0
  {
    var srcAspect := srcW as real / srcH as real;
    var boxAspect := boxW as real / boxH as real;
    if srcAspect > boxAspect then (sideW, Trunc(sideW as real / srcAspect))
    else (Trunc(sideH as real * srcAspect), sideH)
  }

  /** The image is wider than the box, compared without division. */
  predicate WiderThan(w: Pos, h: Pos, boxW: int, boxH: int) {
    w * boxH > boxW * h
  }

  /** Comparing aspect ratios is comparing cross products. */
  lemma AspectCompare(w: Pos, h: Pos, boxW: int, boxH: int)
    requires boxH > 0
    ensures w as real / h as real > boxW as real / boxH as real <==> WiderThan(w, h, boxW, boxH)
  {
    var a, b := w as real / h as real, boxW as real / boxH as real;
    assert a * h as real == w as real;
    assert b * boxH as real == boxW as real;
    assert (a - b) * (h as real * boxH as real) == (w * boxH - boxW * h) as real;
    MulNonneg(h as real, boxH as real);
    if a > b {
      MulPositive(a - b, h as real * boxH as real);
    } else if WiderThan(w, h, boxW, boxH) {
      MulNonneg(b - a, h as real * boxH as real);
    }
  }

  lemma MulPositive(a: real, b: real)
    requires a > 0.0 && b > 0.0
    ensures a * b > 0.0
  {
  }

  /** `int()` of a non-negative quotient is integer division. */
  lemma TruncQuotient(a: int, b: Pos)
    requires a >= 0
    ensures Trunc(a as real / b as real) == a / b
  {
    var q, r := a / b, a % b;
    assert a == q * b + r;
    assert a as real / b as real == q as real + r as real / b as real;
    assert 0.0 <= r as real / b as real < 1.0;
  }

  /** The two cases of the contain fit in whole-number terms: a wider image
      takes the box width and `maxW * srcH / srcW` rows, any other takes the
      box height and `maxH * srcW / srcH` columns. */
  lemma FitToBoxCases(srcW: Pos, srcH: Pos, maxW: int, maxH: int)
    requires maxW >= 0 && maxH > 0
    ensures WiderThan(srcW, srcH, maxW, maxH) ==> FitToBox(srcW, srcH, maxW, maxH, true) == (maxW, maxW * srcH / srcW)
    ensures !WiderThan(srcW, srcH, maxW, maxH) ==> FitToBox(srcW, srcH, maxW, maxH, true) == (maxH * srcW / srcH, maxH)
  {
    AspectCompare(srcW, srcH, maxW, maxH);
    if WiderThan(srcW, srcH, maxW, maxH) {
      DivideByRatio(maxW, srcW, srcH);
      TruncQuotient(maxW * srcH, srcW);
    } else {
      ScaleByRatio(maxH, srcW, srcH);
      TruncQuotient(maxH * srcW, srcH);
    }
  }

  lemma DivideByRatio(m: int, a: Pos, b: Pos)
    ensures m as real / (a as real / b as real) == (m * b) as real / a as real
  {
    var x, y, z := m as real, a as real, b as real;
    assert (m * b) as real == x * z;
    assert x / (y / z) == (x * z) / y;
  }

  lemma ScaleByRatio(m: int, a: Pos, b: Pos)
    ensures m as real * (a as real / b as real) == (m * a) as real / b as real
  {
    var x, y, z := m as real, a as real, b as real;
    assert (m * a) as real == x * y;
    assert x * (y / z) == (x * y) / z;
  }

  /** The fitted image lies inside the box and fills it along one side. */
  lemma FitToBoxFits(srcW: Pos, srcH: Pos, maxW: int, maxH: int)
    requires maxW >= 0 && maxH > 0
    ensures var (w, h) := FitToBox(srcW, srcH, maxW, maxH, true);
      0 <= w <= maxW && 0 <= h <= maxH && (w == maxW || h == maxH)
  {
    FitToBoxCases(srcW, srcH, maxW, maxH);
    if WiderThan(srcW, srcH, maxW, maxH) {
      QuotientBelow(maxW * srcH, srcW, maxH);
    } else {
      QuotientBelow(maxH * srcW, srcH, maxW);
    }
  }

  /** `a <= b * c` with `b > 0` bounds `a / b` by `c`. */
  lemma QuotientBelow(a: int, b: Pos, c: int)
    requires 0 <= a <= b * c
    ensures 0 <= a / b <= c
  {
    assert a == (a / b) * b + a % b;
  }

  /** Stretching ignores the image: the result is the box. */
  lemma FitStretched(srcW: Pos, srcH: Pos, maxW: int, maxH: int)
    ensures FitToBox(srcW, srcH, maxW, maxH, false) == (maxW, maxH)
  {
  }

  /** The two cases of the doc comment. */
  lemma FitToBoxExamples()
    ensures FitToBox(800, 600, 400, 600, true) == (400, 300)
    ensures FitToBox(600, 800, 600, 400, true) == (300, 400)
  {
    FitToBoxCases(800, 600, 400, 600);
    FitToBoxCases(600, 800, 600, 400);
  }

  /** `get_centering_offset`: half the spare room on each axis, rounded
      down (`//`). */
  function CenteringOffset(imgW: int, imgH: int, containerW: int, containerH: int): (int, int) {
    ((containerW - imgW) / 2, (containerH - imgH) / 2)
  }

  /** The offset splits the spare room evenly, the odd pixel going after the
      image; an image that fits gets a non-negative offset and stays inside. */
  lemma CenteringOffsetSpec(imgW: int, imgH: int, containerW: int, containerH: int)
    ensures var (dx, dy) := CenteringOffset(imgW, imgH, containerW, containerH);
      2 * dx <= containerW - imgW <= 2 * dx + 1 && 2 * dy <= containerH - imgH <= 2 * dy + 1
      && (imgW <= containerW ==> 0 <= dx && dx + imgW <= containerW)
      && (imgH <= containerH ==> 0 <= dy && dy + imgH <= containerH)
  {
  }

  lemma CenteringOffsetExample()
    ensures CenteringOffset(300, 400, 500, 600) == (100, 100)
  {
  }
}
