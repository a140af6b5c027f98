/**
 * Proportional fit of a watermark image against a base image, and the offset
 * that centres it. Sizes are exact rationals; the source's floating-point
 * divisions are idealised. Sizes in prose are width x height.
 */
module Fit {

  /** A (height, width) pair. */
  datatype Size = Size(height: real, width: real)

  /**
   * Size of the watermark (height h, width w) scaled by `ratio` against the
   * base (height H, width W): the
   * constraining dimension of the watermark becomes `ratio` times the base's,
   * the other follows from the watermark's aspect ratio.
   */
  function GetDimensions(H: real, W: real, h: real, w: real, ratio: real): (d: Size)
    requires H > 0.0 && W > 0.0 && h > 0.0 && w > 0.0
    ensures d.height * w == d.width * h
    ensures H / W < h / w ==> d.height == ratio * H
    ensures !(H / W < h / w) ==> d.width == ratio * W
  {
    if H / W < h / w then
      var hh := ratio * H;
      Size(hh, hh / h * w)
    else
      var ww := ratio * W;
      Size(ww / w * h, ww)
  }

  /** `d` keeps the aspect ratio of an image of height h and width w and fits inside a box of height boxH and width boxW. */
  predicate FitsBox(d: Size, h: real, w: real, boxH: real, boxW: real) {
    d.height * w == d.width * h && d.height <= boxH && d.width <= boxW
  }

  /**
   * For a non-negative ratio the result is the largest copy of the watermark,
   * at its own aspect ratio, inside the box of height `ratio*H` and width `ratio*W`: it fits,
   * it touches the box on one side, and every other fitting copy is no larger.
   */
  lemma GetDimensionsIsLargestFit(H: real, W: real, h: real, w: real, ratio: real, other: Size)
    requires H > 0.0 && W > 0.0 && h > 0.0 && w > 0.0 && ratio >= 0.0
    requires FitsBox(other, h, w, ratio * H, ratio * W)
    ensures FitsBox(GetDimensions(H, W, h, w, ratio), h, w, ratio * H, ratio * W)
    ensures GetDimensions(H, W, h, w, ratio).height == ratio * H ||
            GetDimensions(H, W, h, w, ratio).width == ratio * W
    ensures other.height <= GetDimensions(H, W, h, w, ratio).height
    ensures other.width <= GetDimensions(H, W, h, w, ratio).width
  {
  }

  /** With 0 < ratio <= 1 the scaled watermark has positive size and fits inside the base. */
  lemma GetDimensionsWithinBase(H: real, W: real, h: real, w: real, ratio: real)
    requires H > 0.0 && W > 0.0 && h > 0.0 && w > 0.0 && 0.0 < ratio <= 1.0
    ensures 0.0 < GetDimensions(H, W, h, w, ratio).height <= H
    ensures 0.0 < GetDimensions(H, W, h, w, ratio).width <= W
  {
  }

  /** The offset (x, y) at which a watermark of size `d` sits centred on a base of height H and width W: equal margins on both sides. */
  function CentreOffset(H: real, W: real, d: Size): (p: (real, real))
    ensures p.0 + d.width + p.0 == W
    ensures p.1 + d.height + p.1 == H
  {
    ((W - d.width) / 2.0, (H - d.height) / 2.0)
  }

  /** A watermark no larger than the base, placed at the centre offset, lies inside the base. */
  lemma CentredInside(H: real, W: real, d: Size)
    requires 0.0 <= d.height <= H && 0.0 <= d.width <= W
    ensures 0.0 <= CentreOffset(H, W, d).0 && CentreOffset(H, W, d).0 + d.width <= W
    ensures 0.0 <= CentreOffset(H, W, d).1 && CentreOffset(H, W, d).1 + d.height <= H
  {
  }

  /** Width-constrained branch: a 500 x 1000 base (H = 1000, W = 500) and a 100 x 100 watermark at 0.6 give 300 x 300. */
  lemma WidthConstrainedExample()
    ensures GetDimensions(1000.0, 500.0, 100.0, 100.0, 0.6) == Size(300.0, 300.0)
  {
  }

  /** Height-constrained branch: a 1000 x 500 base (H = 500, W = 1000) and a 50 x 100 watermark at 0.6 give 150 x 300. */
  lemma HeightConstrainedExample()
    ensures GetDimensions(500.0, 1000.0, 100.0, 50.0, 0.6) == Size(300.0, 150.0)
  {
  }
}
