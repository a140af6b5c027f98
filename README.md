# jimp-fullpage-watermark, modelled in Dafny

The library stamps a watermark onto a base image. The watermark is either
text or another image. It has three modes:

- `addTextWatermark` prints text over the whole image.
- `addWatermark` resizes a watermark image, centres it and composites it once.
- `coverTextWatermark` renders a small rotated, translucent text tile and
  composites it over the whole surface.

All pixel work is done by the Jimp imaging library. The logic of the library
itself lives in `index.js`, and this project models that logic:

- `wrappers.dfy`, module `Wrappers`: `Option` (a field the caller may leave
  out) and `Result` (the error a function throws).
- `options.dfy`, module `WatermarkOptions`:
  - the default options record;
  - the keys of the font-size table;
  - the overlay of the caller's fields on the defaults (an object spread in
    the source);
  - `checkOptions` with its four checks, run in a fixed order.
- `fit.dfy`, module `Fit`:
  - `getDimensions`, the proportional fit of a watermark against the base;
  - the offset that centres the watermark on the base.

  Sizes are exact rationals (`real`).
- `tiling.dfy`, module `Tiling`:
  - `calculatePositionList` as a method with its two nested counting loops;
  - `PositionList`, the specification function the method is proved equal to;
  - lemmas about that list: its length (the ceiling of width over tile width
    times the ceiling of height over tile height), the offset at each index,
    bounds, x-major order, coverage of every pixel, and the first and last
    offsets.
- `watermark.dfy`, module `Watermark`: what `addWatermark` and
  `coverTextWatermark` compute between loading or rendering the images and
  compositing. The sizes of the loaded and rendered images are parameters.

Sizes are written width x height throughout.

Two behaviours of the code are kept as they are:

- The code has no guard against a non-positive tile size: the loops then
  never stop. So `CalculatePositionList` requires exactly the condition under
  which the JS loops stop: `width <= 0`, or a positive tile width together
  with either `height <= 0` or a positive tile height.
- The code checks only the upper bound of ratio and opacity
  (index.js:77-82), so the model accepts zero and negative values.
  `NoLowerBound` and `Watermark.NonPositiveRatioAccepted` state this.

## Model

| member | source | states |
|---|---|---|
| `WatermarkOptions.Merge` | index.js:76 | every field of the merged record is the caller's value when given and the default otherwise |
| `WatermarkOptions.SizeKeysAreLevels` | index.js:15-24 | an integer is a key of the font-size table `SizeKeys` if and only if it lies in 1..8 |
| `WatermarkOptions.DefaultsAccepted` | index.js:3-12 | with no fields given, the result is accepted and equals `DefaultOptions`, the default record (0.6, 0.6, './watermark.jpg', 'jimp-watermark', 1, 30, 300, 50) |
| `WatermarkOptions.MergeAllGiven` | index.js:76 | giving every field overrides every default |
| `WatermarkOptions.CheckOptions` | index.js:75-90 | accepts exactly when ratio <= 1, opacity <= 1, rotation in [1,360] and text size in 1..8, and then returns the merged record; otherwise it fails with the error of the first check that fails, in the order ratio, opacity, rotation, text size (both directions for each error) |
| `WatermarkOptions.CheckOptionsIdempotent` | index.js:75-90 | checking an accepted result again accepts it and returns it unchanged |
| `WatermarkOptions.AcceptedTextSizeIsKey` | index.js:105-122 | an accepted text size is always a key of the font table, so the second text-size test in `addTextWatermark` cannot fail |
| `WatermarkOptions.RatioCheckedFirst` | index.js:77-79 | a given ratio above 1 fails with ErrorScaleRatio whatever the other fields are |
| `WatermarkOptions.BoundariesAccepted` | index.js:77-88 | ratio 1, opacity 1, rotation 1 or 360 and text size 1 or 8 are accepted |
| `WatermarkOptions.NoLowerBound` | index.js:77-82 | zero or negative ratio and opacity are accepted unchanged |
| `WatermarkOptions.RejectedExamples` | index.js:77-88 | ratio 1.5, opacity 2, rotation 0, rotation 361 and text size 9 each fail with their own error |
| `Fit.GetDimensions` | index.js:32-42 | the result keeps the watermark's aspect ratio (hh * w == ww * h); when H/W < h/w the height is ratio * H, otherwise the width is ratio * W |
| `Fit.GetDimensionsIsLargestFit` | index.js:34-40 | for ratio >= 0 the result is the largest copy of the watermark at its own aspect ratio that fits in the box of width ratio*W and height ratio*H: it fits, it touches one side, and every other fitting copy is no larger in either dimension |
| `Fit.GetDimensionsWithinBase` | index.js:34-41 | for 0 < ratio <= 1 both dimensions are positive and no larger than the base's |
| `Fit.CentreOffset` | index.js:143-144 | the margins left and right of the watermark are equal, and so are those above and below |
| `Fit.CentredInside` | index.js:143-144 | a watermark no larger than the base, at the centre offset, lies wholly inside the base |
| `Fit.WidthConstrainedExample` | index.js:37-39 | a 500 x 1000 base (H = 1000, W = 500) and a 100 x 100 watermark at 0.6 give 300 x 300 |
| `Fit.HeightConstrainedExample` | index.js:34-36 | a 1000 x 500 base (H = 500, W = 1000) and a 50 x 100 watermark at 0.6 give 150 x 300 |
| `Tiling.PositionList` | index.js:66-72 | the list the loops push, defined column by column (`Columns`) and, within a column, row by row (`Column`); its properties are the `Tiling` lemmas below |
| `Tiling.CalculatePositionList` | index.js:61-73 | the nested loops push exactly `PositionList(width, height, stepW, stepH)`, for every input on which they stop |
| `Tiling.TileCountIsCeiling` | index.js:67-68 | the number of counter values 0, step, 2*step, ... below an extent is the ceiling of extent / step, or 0 for a non-positive extent |
| `Tiling.ColumnShape` | index.js:68-70 | the inner loop for one x yields one offset per tile row, the k-th with y = j + k * stepH |
| `Tiling.ColumnsLength` | index.js:67-71 | the outer loop from x = i yields columns left times rows offsets |
| `Tiling.ColumnsShape` | index.js:67-71 | from x = i, tile (a, b) of the grid sits at index a * rows + b with offset (i + a * stepW, b * stepH) |
| `Tiling.EmptyIff` | index.js:66-72 | the list is empty if and only if the width or the height is 0 or less |
| `Tiling.FirstIsOrigin` | index.js:67-69 | on a base with positive width and height the first offset is (0, 0) |
| `Tiling.PositionListLength` | index.js:67-71 | for positive steps the list has TileCount(width, stepW) * TileCount(height, stepH) offsets: ceil(width/stepW) * ceil(height/stepH) when width and height are non-negative, and 0 otherwise |
| `Tiling.PositionOfTile` | index.js:67-71 | every grid tile (a, b) with a below the column count and b below the row count occurs, at index a * rows + b, as (a * stepW, b * stepH) |
| `Tiling.PositionAt` | index.js:67-71 | index n holds ((n / rows) * stepW, (n % rows) * stepH), with n / rows below the column count |
| `Tiling.PositionInBounds` | index.js:67-71 | every offset has 0 <= x < width and 0 <= y < height, with x a multiple of stepW and y a multiple of stepH |
| `Tiling.PositionSuccessor` | index.js:67-71 | x-major order: the next offset is (x, y + stepH) while that stays below the height, and otherwise (x + stepW, 0) |
| `Tiling.Covers` | index.js:67-71 | every pixel of the base lies inside the tile placed at some offset of the list |
| `Tiling.LastPosition` | index.js:67-71 | on a non-empty base the last offset is ((cols - 1) * stepW, (rows - 1) * stepH) |
| `Tiling.CoverExample` | index.js:67-71 | a 1000 x 600 base with 300 x 50 tiles yields 48 offsets, from (0, 0) to (900, 550) |
| `Tiling.SquareCoverExample` | index.js:67-71 | a 900 x 900 base with steps of 300 x 50 yields 54 offsets (in `coverTextWatermark` the steps are the size of the rendered tile, which is a parameter here) |
| `Watermark.PlaceWatermark` | index.js:138-144 | fails exactly when the options check fails, with the same error; otherwise the watermark is resized to `GetDimensions` of the base and watermark sizes at the merged ratio, keeps its aspect ratio, and sits at the offset with equal margins on both sides |
| `Watermark.PlacementInsideBase` | index.js:141-144 | with an accepted ratio above 0 the placed watermark lies wholly inside the base |
| `Watermark.CoverPositions` | index.js:174-177 | fails exactly when the options check fails, with the same error; otherwise it gives exactly `PositionList` of the base and tile sizes, in the order they are composited: TileCount(width, tileW) * TileCount(height, tileH) offsets (ceil(width/tileW) * ceil(height/tileH) when width and height are non-negative), all on the base |
| `Watermark.LogoExample` | index.js:138-144 | a 1000 x 800 base and a 200 x 100 logo at ratio 0.5 put a 500 x 250 logo at (250, 275) |
| `Watermark.NonPositiveRatioAccepted` | index.js:77-82 | a ratio of 0 or below passes validation and leads to a watermark with no positive dimension |

## Left out

- All calls into Jimp are left out, because they are a foreign library and file I/O. These are reading images, loading fonts, printing text, opacity, scale, rotate, resize, composite, and writing at quality 100. What remains of the entry points is the data flow in module `Watermark`.
- `textWatermark` (index.js:44-59) is left out: it is a fixed sequence of raster operations. The size of the tile it renders is a parameter of `Watermark.CoverPositions`. That tile is taken to have a positive size (`requires tileW > 0 && tileH > 0`): otherwise the loops at index.js:67-68 never stop on a non-empty base (see `Tiling.Terminates`).
- `addTextWatermark` is left out beyond the fact that its second text-size test cannot fail (`AcceptedTextSizeIsKey`). The rest of it is Jimp calls.
- The async orchestration and the try/rethrow wrappers of the three exported functions are left out. They rethrow unchanged, which `Result` propagation already models.
- The composite loop of `coverTextWatermark` (index.js:178-182) is left out: it only consumes the offsets, in list order.
- The returned `{destinationPath, imageHeight, imageWidth}` record is left out: it only copies values out of the options and the base image.
- `ErrorColWidth` and `ErrorRowHeight` (index.js:29-30) are declared but never thrown, so the error datatype does not have them.
- Fit.GetDimensions: works on exact rationals. It does not model IEEE-754 double rounding, or the integer pixel rounding that `resize` applies afterwards.
- WatermarkOptions.Merge: a field is either present or absent. Three JS cases are not modelled: a field present with the value `undefined` (the spread copies it), extra keys the caller passes (the spread keeps them), and values of the wrong JS type.
- WatermarkOptions.CheckOptions: the text size is an `int`. The JS test `String(textSize)` also accepts the string `"1"` or the number `1.0`, and that is not modelled. NaN comparisons are not modelled either.
- Tiling.CalculatePositionList: the counters are unbounded integers. JS numbers lose precision above 2^53, which image sizes never reach.
- The font identifiers behind the font-size table are left out. Only its key set {1..8} matters to the logic.
