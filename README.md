# wasm_map_generator in Dafny

A model of the terrain-map generator `wasm_map_generator` and of the page
that draws its maps.

`NoiseMap::new` in `src/lib.rs` builds a `width x height` grid of heights.
Every cell is the sum of `octaves` layers of coherent noise. Each layer is
sampled at a frequency of `lacunarity^i` and weighted by `persistence^i`.
With `reshape` on, a falloff raises the cells near the centre of the map,
lowers those near the corners, and clamps each cell to [0, 1]. While the
grid is filled, a running maximum and minimum are updated. The minimum is
compared only when a value does not raise the maximum. The rows are then
flattened into one row-major vector.

The page (`www/index.js`) reads the vector back. It normalises every value
between the tracked minimum and maximum and finds the value's row and
column. It then paints the cell either in gray or in the colour of an
elevation band: the first band, among all but the last, whose height is at
least the normalised value. The last band's height is never compared. The
last band is used for a NaN value and for any value above every other
band's height: with the default bands, any value above 0.9. Once the heights
are edited, this also includes a value above the last band's own height.

Modules:

- `MathHelpers` (`math_helpers.dfy`): `lerp`, `invlerp` and `clamp`, which
  are the same expressions in the Rust code and on the page. It also has
  `powi` and `euclidean_distance`.
- `Extrema` (`extrema.dfy`): the `f64::MIN`/`f64::MAX` sentinels, and the
  max/else-min update as a fold over the values seen.
- `Flatten` (`flatten.dfy`): `Vec::concat` of the rows, and the row-major
  layout it produces.
- `MapGenerator` (`noise_map.dfy`): `NoiseMap::new`.
  - The nested loops are methods: `SampleCell` is the body of the per-cell
    loop with its octave loop, `FillRow` is the `for x` loop and `New` is the
    `for y` loop.
  - Each method is proved against the functions `CellValue`, `Row`, `Rows`
    and `Grid`.
  - The struct is the datatype `NoiseMap`; its getters are its field reads.
    The field `map` is called `values` because `map` is a Dafny keyword.
- `ElevationColors` (`colors.dfy`): the band list and the choice
  `colors.slice().reverse().reduce(...)`.
  - The function `SelectColor` states the choice.
  - The method `CellColor` does the same on an array: it copies the array,
    reverses the copy in place, then runs the reducer loop.
- `Display` (`display.dfy`): `clamp` with its default bounds, `invlerp` as
  the page evaluates it, `getCoord`, the gray level and the `render` loop.
  Each painted square is a `Pixel` value.

Doubles are modelled as mathematical reals. Two places in the page depend
on IEEE behaviour and are modelled explicitly:

- `invlerp(min, max, v)` divides by zero when the tracked minimum equals the
  maximum. This can happen, for instance in a two-cell map whose cells both
  clamp to 0. The quotient is then NaN for `v == min`, and the
  comparison with a band height is false, so the last band is chosen. Other
  values give ±Infinity, which clamps to 1 or 0.
- `Amount` models that NaN.

Behaviour of the code worth knowing:

- A zero width or height is not rejected, and the map is empty.
  - With a zero height the `for y` loop does not run.
  - With a zero width and a non-zero height, the `for y` loop still runs
    `height` times and pushes `height` empty rows. Only the inner loops are
    skipped.
- The tracked `[min_value, max_value]` need not contain every value.
  - A value that raises the maximum is never compared with the minimum.
  - The first cell always raises the maximum, which starts at `f64::MIN`.
  - A map of one cell, or one whose values keep rising, keeps `min_value`
    at `f64::MAX`.
  - `Extrema.FirstValueEscapesMin`, `Extrema.TrackAllIncreasingKeepsMin`
    and `MapGenerator.OneCellIsland` state this.

## Model

| member | source | states |
|---|---|---|
| `MathHelpers.Lerp` | src/lib.rs:31-33 | yields `a` at t = 0 and `b` at t = 1; for t in [0, 1] the result lies between `a` and `b` |
| `MathHelpers.LerpBetween` | src/lib.rs:31-33 | for t in [0, 1], `a(1-t) + bt` lies between min(a, b) and max(a, b) |
| `MathHelpers.Clamp` | src/lib.rs:39-41 | with lo <= hi the result is in [lo, hi]; it is `v` itself inside the range, `lo` below it and `hi` above it |
| `MathHelpers.InvLerp` | src/lib.rs:35-37 | the result is in [0, 1]; it is 0 exactly when `v` is at or before `a`, and 1 exactly when `v` is at or past `b`, whichever way `a` and `b` are ordered |
| `MathHelpers.InvLerpEnds` | src/lib.rs:35-37 | the unclamped fraction `(v-a)/(b-a)` is <= 0 exactly at or before `a` and >= 1 exactly at or past `b` |
| `MathHelpers.InvLerpMonotone` | src/lib.rs:35-37 | for a < b, a larger value never gets a smaller fraction |
| `MathHelpers.InvLerpIdempotent` | src/lib.rs:35-37 | normalising a normalised value to [0, 1] again leaves it unchanged |
| `MathHelpers.PowTwo` | src/lib.rs:28 | `powi(2)` is the product of a number with itself |
| `MathHelpers.SquaredDistance` | src/lib.rs:28 | the sum of the squared coordinate differences is non-negative, and 0 for equal points |
| `MathHelpers.EuclideanDistance` | src/lib.rs:27-29 | the distance of a point to itself is the square root of 0 |
| `MathHelpers.EuclideanDistanceSymmetric` | src/lib.rs:27-29 | the distance does not depend on the order of the points |
| `Extrema.Track` | src/lib.rs:88-92 | after one update the max is the old max or the new value and bounds both; the min is the old min or the new value and does not rise; a value that raises the max leaves the min alone; a value that does not raise the max is >= the new min |
| `Extrema.TrackAllPush` | src/lib.rs:86-92 | tracking one more pushed value is one more update step |
| `Extrema.TrackAllAppend` | src/lib.rs:67-96 | tracking row after row equals tracking the concatenated rows |
| `Extrema.TrackAllMax` | src/lib.rs:88-90 | the tracked max is >= the start value, >= every value seen, and is the start value or one of the values |
| `Extrema.TrackAllMinBounds` | src/lib.rs:90-92 | the tracked min is <= the start value, and is the start value or one of the values |
| `Extrema.TrackAllMinBelowNonRaising` | src/lib.rs:88-92 | every value that did not raise the max when it came is >= the final min |
| `Extrema.TrackAllIncreasingKeepsMin` | src/lib.rs:88-92 | values that keep raising the max leave the min at its start value, and the max ends at the last value |
| `Extrema.SingleValueKeepsMinSentinel` | src/lib.rs:64-65 | from the sentinels, a single value above `f64::MIN` becomes the max and leaves the min at `f64::MAX` |
| `Extrema.FirstValueEscapesMin` | src/lib.rs:88-92 | for the values 0.5, 0.7 the tracked max is 0.7 and the min stays `f64::MAX`, above the first value |
| `Flatten.ConcatPush` | src/lib.rs:95 | pushing a row onto the grid appends its cells to the flattened grid |
| `Flatten.ConcatLength` | src/lib.rs:107 | rows of equal width flatten to rows x width cells |
| `Flatten.ConcatAt` | src/lib.rs:107 | with rows of equal width, cell x of row y lands at index y * width + x |
| `Flatten.ConcatWithin` | src/lib.rs:107 | values that all lie in [lo, hi] row by row still do once flattened |
| `MapGenerator.OctaveBounded` | src/lib.rs:75 | with noise in [-1, 1] and persistence >= 0, octave i lies within ±persistence^i |
| `MapGenerator.OctaveSumBounded` | src/lib.rs:70-76 | with noise in [-1, 1] and persistence >= 0, the raw sum of n octaves lies within ±(1 + p + ... + p^(n-1)) |
| `MapGenerator.Falloff` | src/lib.rs:81-82 | the falloff is in [-1, 1]; it is 1 at distance 0 (the centre) and -1 at the corner distance or beyond |
| `MapGenerator.FalloffMonotone` | src/lib.rs:81-82 | the falloff never grows with the distance from the centre |
| `MapGenerator.CellValue` | src/lib.rs:70-84 | with reshape the stored value is in [0, 1]; without it, it is the raw octave sum |
| `MapGenerator.ReshapeLowersCorner` | src/lib.rs:78-84 | with reshape, cell (0, 0) stores clamp(raw sum - 1) |
| `MapGenerator.ReshapeRaisesCenter` | src/lib.rs:78-84 | with reshape, the centre cell of an even-sized grid stores clamp(raw sum + 1) |
| `MapGenerator.Row` | src/lib.rs:68-93 | row y has `width` values, value x being that of cell (x, y) |
| `MapGenerator.Rows` | src/lib.rs:63-96 | the first n rows of the grid are n rows |
| `MapGenerator.RowsAt` | src/lib.rs:67-96 | row j of the first n rows is row j of the grid |
| `MapGenerator.RowsUniform` | src/lib.rs:67-96 | every row of the full grid is that row and has `width` values |
| `MapGenerator.GridLength` | src/lib.rs:107 | the flattened grid has width * height values |
| `MapGenerator.GridAt` | src/lib.rs:107 | cell (x, y) is at index y * width + x of the flattened grid |
| `MapGenerator.GridWithinUnit` | src/lib.rs:83 | with reshape, every value of the flattened grid is in [0, 1] |
| `MapGenerator.SampleCell` | src/lib.rs:70-84 | the octave loop followed by the optional reshape computes the cell's value, in [0, 1] under reshape |
| `MapGenerator.FillRow` | src/lib.rs:68-93 | the `for x` loop builds row y, and leaves the max and min equal to the tracking fold over that row from their values at the start |
| `MapGenerator.New` | src/lib.rs:45-109 | keeps the parameters; the map is the flattened grid, with width * height values, all in [0, 1] under reshape; max and min are the tracking fold of the map from the `f64::MIN`/`f64::MAX` sentinels |
| `MapGenerator.OneCellIsland` | src/lib.rs:64-92 | a 1x1 reshaped map has a value in [0, 1] that is the max, while the min stays `f64::MAX` |
| `ElevationColors.DefaultColors` | www/index.js:40-46 | the page starts with six bands whose heights ascend and end at 1.0 |
| `ElevationColors.Reverse` | www/index.js:90 | the reversed list has the same length, with element i taken from position n-1-i |
| `ElevationColors.FirstFit` | www/index.js:90-91 | the reference choice: an index inside the list where, unless it is the last, the amount fits under the band; the amount fits under no band before it |
| `ElevationColors.SelectColor` | www/index.js:90-91 | the reduction over the reversed copy fails on an empty list and otherwise picks the `FirstFit` band |
| `ElevationColors.ScanPush` | www/index.js:91 | appending a band to the scan is one reducer step on the fallback |
| `ElevationColors.FoldReverseIsScan` | www/index.js:90-91 | reducing the reversed list equals scanning the list from the front |
| `ElevationColors.ScanIsFirstFit` | www/index.js:90-91 | a scan with the last band as its fallback picks the `FirstFit` band |
| `ElevationColors.SelectIsFirstFit` | www/index.js:90-91 | reducing from the first element of the reversed list picks the `FirstFit` band |
| `ElevationColors.AscendingPicksTightestBand` | www/index.js:90-91 | with ascending heights and an amount no higher than the last height, the chosen band's height is the smallest one at or above the amount |
| `ElevationColors.AboveOthersPicksLastBand` | www/index.js:90-91 | an amount above every band's height but the last gets the last band, whatever the last band's own height |
| `ElevationColors.NaNPicksLastBand` | www/index.js:90-91 | a NaN amount fits under no band, so the last band is chosen |
| `ElevationColors.DefaultColorsPickTightestBand` | www/index.js:40-91 | for the default bands and any amount <= 1, the chosen band's height is the smallest one at or above the amount |
| `ElevationColors.HalfWayIsGrass` | www/index.js:40-91 | with the default bands, amount 0.5 gets the grass band (34, 201, 101) up to 0.65 |
| `ElevationColors.ReverseInPlace` | www/index.js:90 | the array ends up holding its old contents reversed |
| `ElevationColors.CellColor` | www/index.js:90-91 | the copy, reverse and reduce return exactly what `SelectColor` gives: `None` for an empty list, where `reduce` throws, and otherwise the chosen band; the method has no `modifies` clause, so the page's list is unchanged |
| `Display.ClampUnit` | www/index.js:7 | `clamp` with its default bounds gives a result in [0, 1]: `v` inside, 0 below, 1 above |
| `Display.PageInvLerp` | www/index.js:6 | when min != max it is `invlerp` of the generator, in [0, 1]; it is NaN exactly when min == max == v; when min == max, a value above gives 1 (+Infinity clamped) and a value below gives 0 (-Infinity clamped) |
| `Display.GetCoord` | www/index.js:77-79 | (row, column) with row * width + column == idx and column < width |
| `Display.GetCoordOfCell` | www/index.js:77-79 | index y * width + x maps back to row y, column x |
| `Display.GetCoordInGrid` | www/index.js:77-79 | an index below width * height has its row below height |
| `Display.GrayLevel` | www/index.js:87 | NaN exactly for a NaN amount; amounts in [0, 1] give levels in [0, 255], with 0 at 0 and 255 at 1 |
| `Display.GrayLevelMonotone` | www/index.js:87 | a higher amount never gives a lower gray level |
| `Display.Render` | www/index.js:81-97 | one pixel per value, in index order; pixel idx is the square at `getCoord(idx)` with the fill of that value |
| `Display.PixelOnCanvas` | www/index.js:81-97 | every painted square lies on the width x height canvas |
| `Display.CellPixel` | www/index.js:82-95 | the value of cell (x, y) is painted at column x, row y |

## Left out

- The noise source is a parameter `noise`.
  - The source builds `Perlin::new()` and calls `set_seed(rand::random())` on it.
    `set_seed` returns a new seeded generator, and the source discards it.
    So the noise used is that of the unseeded `Perlin::new()`.
  - Randomness and the Perlin algorithm are outside the model.
  - Bounds on the noise appear only where a lemma requires the noise is in [-1, 1].
- The square root is a parameter `sqrt`.
  - `ValidConfig` asks that, for a reshaped non-empty grid, the corner-to-centre distance is not 0.
  - With the real square root this holds whenever the grid is non-empty.
- Floating point rounding is not modelled; all arithmetic is exact on reals.
  - A zero `scale` divides by zero in the source, giving Infinity or NaN samples.
  - The model requires a non-zero scale instead.
- `usize` overflow of `width * height` is not modelled.
- `utils::set_panic_hook`, the `wee_alloc` allocator and the `wasm_bindgen` glue are not modelled.
- `noise_map()` returns a raw pointer to the vector. Its counterpart here is the field `values`.
- `write_grid_to_file` writes a PNG file through the `image` crate. It is I/O and not part of the model.
- The page's DOM, canvas context, `dat.GUI` controls and event wiring are not modelled.
  - The `rgb(...)` style string is represented by the `Fill` value it is built from.
  - `www/bootstrap.js` is not part of this model.
- `Display.Render` requires a non-empty colour list.
  - The page's list always holds six bands.
  - The GUI edits the colours and heights of the bands, never the number of them.
- `Display.PageInvLerp` does not model overflow to Infinity when min != max.
- `MapGenerator.SampleCell` and `MapGenerator.FillRow` are the bodies of the nested loops of `NoiseMap::new`, split out as methods with the same statements.
