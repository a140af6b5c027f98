/**
 * The options record of the watermarking functions: the fixed defaults, the
 * overlay of the caller's fields on them (an object spread in the source) and
 * the four range checks applied, in a fixed order, before any image is touched.
 */
module WatermarkOptions {
  import opened Wrappers

  /** A fully populated options record. */
  datatype Options = Options(
    ratio: real,
    opacity: real,
    dstPath: string,
    text: string,
    textSize: int,
    rotation: int,
    colWidth: int,
    rowHeight: int)

  /** The record a caller passes: every field may be absent. */
  datatype UserOptions = UserOptions(
    ratio: Option<real>,
    opacity: Option<real>,
    dstPath: Option<string>,
    text: Option<string>,
    textSize: Option<int>,
    rotation: Option<int>,
    colWidth: Option<int>,
    rowHeight: Option<int>)

  /** The errors `checkOptions` throws, one per check. */
  datatype Error = ErrorScaleRatio | ErrorOpacity | ErrorRotation | ErrorTextSize

  const DefaultOptions: Options :=
    Options(0.6, 0.6, "./watermark.jpg", "jimp-watermark", 1, 30, 300, 50)

  /** A caller that passes no fields at all. */
  const NoOptions: UserOptions :=
    UserOptions(None, None, None, None, None, None, None, None)

  /** The keys of the font-size table; each names one of eight bundled fonts. */
  const SizeKeys: set<int> := {1, 2, 3, 4, 5, 6, 7, 8}

  /** A record given field by field, as `checkOptions` receives its own output. */
  function AllGiven(o: Options): UserOptions {
    UserOptions(Some(o.ratio), Some(o.opacity), Some(o.dstPath), Some(o.text),
                Some(o.textSize), Some(o.rotation), Some(o.colWidth), Some(o.rowHeight))
  }

  /** The caller's fields laid over the defaults: a given field wins, an absent one takes the default. */
  function Merge(u: UserOptions): (o: Options)
    ensures o.ratio == (if u.ratio.Some? then u.ratio.value else DefaultOptions.ratio)
    ensures o.opacity == (if u.opacity.Some? then u.opacity.value else DefaultOptions.opacity)
    ensures o.dstPath == (if u.dstPath.Some? then u.dstPath.value else DefaultOptions.dstPath)
    ensures o.text == (if u.text.Some? then u.text.value else DefaultOptions.text)
    ensures o.textSize == (if u.textSize.Some? then u.textSize.value else DefaultOptions.textSize)
    ensures o.rotation == (if u.rotation.Some? then u.rotation.value else DefaultOptions.rotation)
    ensures o.colWidth == (if u.colWidth.Some? then u.colWidth.value else DefaultOptions.colWidth)
    ensures o.rowHeight == (if u.rowHeight.Some? then u.rowHeight.value else DefaultOptions.rowHeight)
  {
    Options(
      u.ratio.GetOr(DefaultOptions.ratio),
      u.opacity.GetOr(DefaultOptions.opacity),
      u.dstPath.GetOr(DefaultOptions.dstPath),
      u.text.GetOr(DefaultOptions.text),
      u.textSize.GetOr(DefaultOptions.textSize),
      u.rotation.GetOr(DefaultOptions.rotation),
      u.colWidth.GetOr(DefaultOptions.colWidth),
      u.rowHeight.GetOr(DefaultOptions.rowHeight))
  }

  /** The ranges a record must lie in to be accepted (no lower bound on ratio or opacity). */
  predicate InRange(o: Options) {
    && o.ratio <= 1.0
    && o.opacity <= 1.0
    && 1 <= o.rotation <= 360
    && 1 <= o.textSize <= 8
  }

  /**
   * Merge, then check ratio, opacity, rotation and the text size, in that
   * order; the first check that fails decides the error.
   */
  function CheckOptions(u: UserOptions): (r: Result<Options, Error>)
    ensures r.Success? <==> InRange(Merge(u))
    ensures r.Success? ==> r.value == Merge(u)
    ensures r == Failure(ErrorScaleRatio) <==> Merge(u).ratio > 1.0
    ensures r == Failure(ErrorOpacity) <==> Merge(u).ratio <= 1.0 && Merge(u).opacity > 1.0
    ensures r == Failure(ErrorRotation) <==>
      && Merge(u).ratio <= 1.0 && Merge(u).opacity <= 1.0
      && (Merge(u).rotation < 1 || Merge(u).rotation > 360)
    ensures r == Failure(ErrorTextSize) <==>
      && Merge(u).ratio <= 1.0 && Merge(u).opacity <= 1.0
      && 1 <= Merge(u).rotation <= 360
      && (Merge(u).textSize < 1 || Merge(u).textSize > 8)
  {
    var o := Merge(u);
    if o.ratio > 1.0 then Failure(ErrorScaleRatio)
    else if o.opacity > 1.0 then Failure(ErrorOpacity)
    else if o.rotation < 1 || o.rotation > 360 then Failure(ErrorRotation)
    else if o.textSize !in SizeKeys then Failure(ErrorTextSize)
    else Success(o)
  }

  /** The font-size table has exactly the levels 1 to 8 as keys. */
  lemma SizeKeysAreLevels(t: int)
    ensures t in SizeKeys <==> 1 <= t <= 8
  {
  }

  /** Defaults alone pass every check. */
  lemma DefaultsAccepted()
    ensures CheckOptions(NoOptions) == Success(DefaultOptions)
  {
  }

  /** Giving every field replaces every default. */
  lemma MergeAllGiven(o: Options)
    ensures Merge(AllGiven(o)) == o
  {
  }

  /** Checking an accepted record again accepts it unchanged. */
  lemma CheckOptionsIdempotent(u: UserOptions)
    requires CheckOptions(u).Success?
    ensures CheckOptions(AllGiven(CheckOptions(u).value)) == CheckOptions(u)
  {
    MergeAllGiven(CheckOptions(u).value);
  }

  /** An accepted record always names a key of the font-size table. */
  lemma AcceptedTextSizeIsKey(u: UserOptions)
    requires CheckOptions(u).Success?
    ensures CheckOptions(u).value.textSize in SizeKeys
  {
  }

  /** A ratio above one is reported whatever the other fields hold. */
  lemma RatioCheckedFirst(u: UserOptions)
    requires u.ratio.Some? && u.ratio.value > 1.0
    ensures CheckOptions(u) == Failure(ErrorScaleRatio)
  {
  }

  /** The boundary values are accepted: ratio and opacity 1, rotation 1 or 360, text size 1 or 8. */
  lemma BoundariesAccepted(rotation: int, textSize: int)
    requires rotation == 1 || rotation == 360
    requires textSize == 1 || textSize == 8
    ensures CheckOptions(UserOptions(Some(1.0), Some(1.0), None, None,
                                     Some(textSize), Some(rotation), None, None)).Success?
  {
  }

  /** Zero and negative ratios and opacities are not rejected. */
  lemma NoLowerBound(ratio: real, opacity: real)
    requires ratio <= 0.0 && opacity <= 0.0
    ensures CheckOptions(UserOptions(Some(ratio), Some(opacity), None, None,
                                     None, None, None, None)) ==
            Success(DefaultOptions.(ratio := ratio, opacity := opacity))
  {
  }

  /** Each out-of-range example is rejected with its own error. */
  lemma RejectedExamples()
    ensures CheckOptions(NoOptions.(ratio := Some(1.5))) == Failure(ErrorScaleRatio)
    ensures CheckOptions(NoOptions.(opacity := Some(2.0))) == Failure(ErrorOpacity)
    ensures CheckOptions(NoOptions.(rotation := Some(0))) == Failure(ErrorRotation)
    ensures CheckOptions(NoOptions.(rotation := Some(361))) == Failure(ErrorRotation)
    ensures CheckOptions(NoOptions.(textSize := Some(9))) == Failure(ErrorTextSize)
  {
  }
}
