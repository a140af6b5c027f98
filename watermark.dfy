/**
 * The data flow of two entry points between loading or rendering the images
 * and compositing: the size and offset `addWatermark` composites its watermark
 * at, and the offsets at which `coverTextWatermark` composites its tile.
 * Sizes of loaded and rendered images are parameters; sizes in prose are
 * width x height.
 */
module Watermark {
  import opened Wrappers
  import opened WatermarkOptions
  import opened Fit
  import opened Tiling

  /** The size of the resized watermark and the offset it is composited at. */
  datatype Placement = Placement(size: Size, x: real, y: real)

  /**
   * `addWatermark` on a base of height H and width W and a watermark of
   * height h and width w: validate the
   * options, fit the watermark at the ratio, centre it.
   */
  function PlaceWatermark(H: real, W: real, h: real, w: real, user: UserOptions): (r: Result<Placement, Error>)
    requires H > 0.0 && W > 0.0 && h > 0.0 && w > 0.0
    ensures r.Failure? <==> CheckOptions(user).Failure?
    ensures r.Failure? ==> r.error == CheckOptions(user).error
    ensures r.Success? ==> r.value.size == GetDimensions(H, W, h, w, Merge(user).ratio)
    ensures r.Success? ==> r.value.size.height * w == r.value.size.width * h
    ensures r.Success? ==> r.value.x + r.value.size.width + r.value.x == W
    ensures r.Success? ==> r.value.y + r.value.size.height + r.value.y == H
  {
    match CheckOptions(user)
    case Failure(e) => Failure(e)
    case Success(o) =>
      var d := GetDimensions(H, W, h, w, o.ratio);
      var p := CentreOffset(H, W, d);
      Success(Placement(d, p.0, p.1))
  }

  /** With an accepted positive ratio the composited watermark lies wholly inside the base. */
  lemma PlacementInsideBase(H: real, W: real, h: real, w: real, user: UserOptions)
    requires H > 0.0 && W > 0.0 && h > 0.0 && w > 0.0
    requires PlaceWatermark(H, W, h, w, user).Success? && Merge(user).ratio > 0.0
    ensures var pl := PlaceWatermark(H, W, h, w, user).value;
      && 0.0 <= pl.x && pl.x + pl.size.width <= W
      && 0.0 <= pl.y && pl.y + pl.size.height <= H
  {
    var ratio := Merge(user).ratio;
    GetDimensionsWithinBase(H, W, h, w, ratio);
    CentredInside(H, W, GetDimensions(H, W, h, w, ratio));
  }

  /**
   * `coverTextWatermark` on a width x height base with a rendered tile of
   * tileW x tileH: validate the options, then the offsets of every composite.
   */
  function CoverPositions(width: int, height: int, tileW: int, tileH: int, user: UserOptions): (r: Result<seq<Position>, Error>)
    requires tileW > 0 && tileH > 0
    ensures r.Failure? <==> CheckOptions(user).Failure?
    ensures r.Failure? ==> r.error == CheckOptions(user).error
    ensures r.Success? ==> r.value == PositionList(width, height, tileW, tileH)
    ensures r.Success? ==> |r.value| == TileCount(width, tileW) * TileCount(height, tileH)
    ensures r.Success? ==> forall n :: 0 <= n < |r.value| ==>
      0 <= r.value[n].0 < width && 0 <= r.value[n].1 < height
  {
    match CheckOptions(user)
    case Failure(e) => Failure(e)
    case Success(_) =>
      var ps := PositionList(width, height, tileW, tileH);
      PositionListLength(width, height, tileW, tileH);
      assert forall n :: 0 <= n < |ps| ==> 0 <= ps[n].0 < width && 0 <= ps[n].1 < height by {
        forall n | 0 <= n < |ps| ensures 0 <= ps[n].0 < width && 0 <= ps[n].1 < height {
          PositionInBounds(width, height, tileW, tileH, n);
        }
      }
      Success(ps)
  }

  /** A 1000 x 800 base and a 200 x 100 logo at ratio 0.5: a 500 x 250 logo at (250, 275). */
  lemma LogoExample()
    ensures PlaceWatermark(800.0, 1000.0, 100.0, 200.0, NoOptions.(ratio := Some(0.5), opacity := Some(0.8)))
            == Success(Placement(Size(250.0, 500.0), 250.0, 275.0))
  {
  }

  /** A ratio of zero or below passes validation and yields a watermark of no positive size. */
  lemma NonPositiveRatioAccepted(H: real, W: real, h: real, w: real, ratio: real)
    requires H > 0.0 && W > 0.0 && h > 0.0 && w > 0.0 && ratio <= 0.0
    ensures PlaceWatermark(H, W, h, w, NoOptions.(ratio := Some(ratio))).Success?
    ensures PlaceWatermark(H, W, h, w, NoOptions.(ratio := Some(ratio))).value.size.height <= 0.0
    ensures PlaceWatermark(H, W, h, w, NoOptions.(ratio := Some(ratio))).value.size.width <= 0.0
  {
  }
}
