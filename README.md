# checkweather-sg radar pipeline, in Dafny

This project models the radar core of the checkweather-sg-native app.

Rain-area snapshots arrive as documents. Each holds a radar image encoded
as text: one line per pixel row, one printable character per pixel, with
the intensity being the character code minus 33. The app turns a batch of
snapshots into one GeoJSON feature collection for the map. Between every
two snapshots it adds an interpolated "mid" frame. A player component then
steps through the frames in half-steps.

The model covers:

- **`JsText`** (`js_text.dfy`): the three JavaScript string built-ins the
  decoder depends on: `trimEnd`, `split(/\n/g)` and `search(/[^\s]/)`.
- **`Ids`** (`ids.dfy`): frame ids as decimal digit strings, and
  `Number(id)`. It also covers the mid-frame id `${(Number(a) + Number(b)) / 2}`
  and how that id reads back.
- **`RadarUtils`** (`radar_utils.dfy`): the pipeline of `utils/radarUtils.js`:
  - the grid decoder (`convertRadar2Values`), an array-filling loop;
  - the mid-frame grid (`genMidValues`);
  - the pixel-to-longitude/latitude projection, rounded to four decimals;
  - the assembly of Features from the contour levels
    (`convertValues2GeoJSON`, which drops the closing point of each ring,
    smooths it, then projects it).

  The three memoised stages form the class `Pipeline`. It has one map-valued
  cache per stage, keyed by the id alone (`maxArgs: 1`).
- **`App`** (`app.dfy`): the copy of the pipeline in `App.js`. This copy
  differs in three ways:
  - a fixed 217 x 120 grid over Singapore;
  - thresholds starting at 5 instead of 4 and 10;
  - rings projected first and then smoothed, with no point dropped.

  It also covers the inline test radar and `processSnapshots`. That function
  reverses the query result in place. For each document it decodes the
  frame, then builds the mid frame to the next document. It pushes every
  frame's features in order and collects the snapshots.
- **`RainTime`** (`rain_time.dfy`): `convertRainID2Time`, the `h:mm AM/PM`
  label of an id. `components/Player.js:14-27` is a verbatim copy of it, so
  the same function models both.
- **`TestRadar`** (`test_radar.dfy`): the four gradient test radars, built
  in nested loops, and the development-only `testRadar(i)` lookup.
- **`Player`** (`player.dfy`): the player component as a state machine over
  `index`, `playing` and `fwd`. It covers the interval tick and its delay,
  the play button, the slider callbacks, the app-state and snapshots
  effects, and the effect that resolves the index to the frame id shown on
  the map.

Grid cells and coordinates are exact reals. `Math.round` is modelled as
`floor(v + 0.5)`.

d3-contour's marching squares and the Chaikin smoother are not part of this
model. They appear as function-valued parameters (`Isoband`, `smooth`), and
nothing is assumed about them.

Behaviour of the code worth knowing:

- **Batch processing.** `processSnapshots` (`App.js:278-312`) handles a
  whole batch in one synchronous loop; only the publication of the
  collection is deferred.
- **Grid size.** The decoder writes `values[y * width + x]` without a bound
  check, so the model requires the text to fit the grid (see Left out).
- **The forward arrow.** The snapshots effect (`components/Player.js:78-82`)
  only ever sets `fwd` to true. It never clears it, so a new batch keeps an
  arrow that is already shown.

## Model

| member | source | states |
|---|---|---|
| JsText.TrimEnd | utils/radarUtils.js:28 | the result is a prefix of the text; every character cut off is white space; the result does not end in white space |
| JsText.JoinSplit | utils/radarUtils.js:28 | joining the pieces of `split(/\n/g)` with line feeds gives back the text |
| JsText.SplitJoin | utils/radarUtils.js:28 | splitting rows joined by line feeds, none of which contains a line feed, gives back the rows |
| JsText.SplitLinesNoNewline | utils/radarUtils.js:28 | no piece of a split contains a line feed |
| JsText.SplitSingle | utils/radarUtils.js:28 | a text without line feeds splits into itself alone |
| JsText.SplitPrefix | utils/radarUtils.js:28 | splitting `r + "\n" + t` gives `r` followed by the pieces of `t` |
| JsText.TrimEndWhitespace | utils/radarUtils.js:28 | trimming ignores one more trailing white-space character |
| JsText.JoinLinesAppend | utils/radarUtils.js:28 | joining one more row appends a line feed and that row |
| JsText.FirstNonWhitespace | utils/radarUtils.js:32 | -1 exactly when the whole row is white space; otherwise the index of the first character that is not white space |
| Ids.NumberOf | App.js:295 | `Number(id)` is defined (not NaN) exactly for digit strings, the empty string included |
| Ids.NatToStringRoundTrip | App.js:295 | reading back the decimal text of `n` gives `n` |
| Ids.NatToStringInjective | App.js:295 | different numbers print differently |
| Ids.NatToStringLength | utils/convertRainID2Time.js:12 | hours below 10 print as one digit, and 10 to 99 as two |
| Ids.HalfToStringParses | components/Player.js:115 | the printed half-sum reads back as exactly `sum / 2` |
| Ids.OddHalfParses | components/Player.js:115 | a whole number printed with ".5" after it reads back as that number plus one half |
| Ids.MidIdIsMean | App.js:295 | the mid id of two digit ids reads back as the arithmetic mean of their `Number` values |
| Ids.MidIdOfDigits | App.js:295 | between digit ids, the mid id is the printed half of their sum |
| Ids.MidIdOddSum | App.js:295 | when the two ids have an odd sum, the mid id ends in ".5" |
| RainTime.TimeLabel | utils/convertRainID2Time.js:3-16 | empty exactly when the id does not end in four digits; otherwise the shown hour, ":", the minutes copied verbatim, then AM or PM. The shown hour maps 0 to 12 and subtracts 12 above 12; hours 0-23 show 1-12 |
| RainTime.LastFour | utils/convertRainID2Time.js:5 | the four trailing digits |
| RainTime.HourField | utils/convertRainID2Time.js:8 | the first two of the four digits, below 100 |
| RainTime.LabelOfLastFour | utils/convertRainID2Time.js:5 | ids with the same four trailing digits get the same label |
| RainTime.TwoDigitsInjective | utils/convertRainID2Time.js:8 | two hour fields of equal value are the same two digits |
| RainTime.LabelInjective | utils/convertRainID2Time.js:5-12 | for hour fields 00-23, the label determines the four digits |
| RainTime.MidIdHasNoLabel | utils/convertRainID2Time.js:5 | a mid id ending in ".5" gets the empty label |
| RainTime.LabelAfternoon | components/Player.js:19-23 | 1805 is shown as "6:05 PM" |
| RainTime.LabelMidnight | utils/convertRainID2Time.js:10 | 0030 is shown as "12:30 AM" |
| RainTime.LabelNoon | utils/convertRainID2Time.js:9-11 | 1200 is shown as "12:00 PM" |
| RainTime.LabelOutOfRange | utils/convertRainID2Time.js:8-12 | nothing checks the range: 2575 is shown as "13:75 PM" |
| RadarUtils.DecodeRadar | utils/radarUtils.js:26-40 | the filled array is the decoded grid: cell `i` is the character written last at index `i`, or 0 if no row writes it |
| RadarUtils.DecodeRow | utils/radarUtils.js:31-38 | writing row `y` turns every cell from its state after `y` rows into its state after `y + 1` rows |
| RadarUtils.DecodedCell | utils/radarUtils.js:30-38 | for text of at most `height` rows of at most `width` characters: cell (x, y) is the character's code minus 33 where row `y` writes column `x`; every other cell is 0 |
| RadarUtils.CellAfterWellFormed | utils/radarUtils.js:36 | for text of at most `height` rows of at most `width` characters, no row writes into another row's cells |
| RadarUtils.CellIndexUnique | utils/radarUtils.js:36 | a row and a column below `width` determine the cell index `y * width + x` |
| RadarUtils.CellInGrid | utils/radarUtils.js:24 | the index of every pixel lies below `width * height` |
| RadarUtils.WellFormedFits | utils/radarUtils.js:36 | text of at most `height` rows of at most `width` characters never writes past the grid |
| RadarUtils.SpaceRowWritesNothing | utils/radarUtils.js:34 | a row of spaces writes no cell |
| RadarUtils.GenMid | utils/radarUtils.js:83-90 | the filled array is the cell-wise mean of the two grids |
| RadarUtils.MidSymmetric | utils/radarUtils.js:87 | the mid grid does not depend on the order of the two grids |
| RadarUtils.MidIdempotent | utils/radarUtils.js:87 | the mid grid between a grid and itself is that grid |
| RadarUtils.MidBetween | utils/radarUtils.js:87 | every mid cell lies between its two source cells |
| RadarUtils.Round4Near | utils/radarUtils.js:18 | rounding to four decimals moves a value by at most 0.00005 |
| RadarUtils.Round4Monotone | utils/radarUtils.js:18 | rounding keeps the order of values |
| RadarUtils.Round4IsQuantum | utils/radarUtils.js:18 | a rounded value has at most four decimals |
| RadarUtils.Round4Fixed | utils/radarUtils.js:18 | a value with at most four decimals rounds to itself |
| RadarUtils.X2LngMonotone | utils/radarUtils.js:17-19 | longitude does not decrease from west to east |
| RadarUtils.Y2LatAntitone | utils/radarUtils.js:20-22 | latitude does not increase from north to south |
| RadarUtils.ShareMonotone | utils/radarUtils.js:17-22 | a larger share of the width (height) gives a larger offset along the longitude (latitude) span |
| RadarUtils.ProjectionEndpoints | utils/radarUtils.js:14-22 | pixel 0 maps to the rounded west and north bounds; pixel `width` (`height`) maps within 0.00005 of the east (south) bound |
| RadarUtils.LngInBox | utils/radarUtils.js:17-19 | every column from 0 to `width` maps to a four-decimal longitude inside the rounded bounds |
| RadarUtils.LatInBox | utils/radarUtils.js:20-22 | every row from 0 to `height` maps to a four-decimal latitude inside the rounded bounds |
| RadarUtils.ContourLevels | utils/radarUtils.js:47-50 | one level per threshold, in threshold order, each tagged with its threshold |
| RadarUtils.ThresholdsAscending | utils/radarUtils.js:49 | the utils thresholds strictly ascend |
| RadarUtils.ProjectRing | utils/radarUtils.js:66-69 | projecting keeps the number of points |
| RadarUtils.MapPolygons | utils/radarUtils.js:63-71 | the number of polygons and of rings per polygon is unchanged |
| RadarUtils.AssembleFeatures | utils/radarUtils.js:53-76 | the pushed list is one Feature per level with geometry, in level order |
| RadarUtils.KeptMembers | utils/radarUtils.js:57 | exactly the levels with a non-empty coordinate list are kept |
| RadarUtils.KeptAscending | utils/radarUtils.js:55-58 | filtering keeps ascending levels ascending |
| RadarUtils.FeaturesTagged | utils/radarUtils.js:58-72 | each Feature carries the frame id and a non-empty geometry. Its intensity and geometry type are those of a level with geometry, and it has the same number of polygons |
| RadarUtils.FeatureCount | utils/radarUtils.js:57 | the number of Features is the number of levels minus the empty ones |
| RadarUtils.FrameIntensitiesAscending | utils/radarUtils.js:49-60 | a frame's Features have strictly ascending intensities, each one of the thresholds |
| RadarUtils.AssembledTagged | utils/radarUtils.js:58-60 | every Feature of a frame carries that frame's id and one of the thresholds |
| RadarUtils.UtilsRingDropsLast | utils/radarUtils.js:65-66 | the smoother receives the ring without its last point |
| RadarUtils.UtilsRingInBox | utils/radarUtils.js:64-69 | when the smoothed ring stays inside the image, every output position has four decimals and lies inside the rounded bounds |
| RadarUtils.Pipeline.constructor | utils/radarUtils.js:26-27 | the caches start empty |
| RadarUtils.Pipeline.ConvertRadar2Values | utils/radarUtils.js:26-45 | a cached id returns the first grid whatever the text; a new id decodes the text and caches the grid; the other caches are unchanged; cached grids keep `width * height` cells |
| RadarUtils.Pipeline.ConvertValues2GeoJSON | utils/radarUtils.js:51-81 | a cached id returns the first Features; a new id assembles them from the contour levels of the grid and caches them; every cached Feature carries the id it is cached under and one of the thresholds |
| RadarUtils.Pipeline.GenMidValues | utils/radarUtils.js:83-94 | a cached id returns the first mid grid; a new id computes the cell-wise mean and caches it |
| TestRadar.Percent | utils/testRadar.js:8 | `~~Math.round(n / d * 100)` lies between 0 and 100 |
| TestRadar.GradientIntensity | utils/testRadar.js:4-51 | every generated intensity lies between 0 and 100 |
| TestRadar.GradientRow | utils/testRadar.js:7-11 | a row has exactly `width` characters |
| TestRadar.GenerateGradient | utils/testRadar.js:4-15 | the text built by the nested loops is `height` rows of the generator's characters, each followed by a line feed |
| TestRadar.LinesJoin | utils/testRadar.js:12 | line-terminated rows are the rows joined by line feeds, plus one final line feed |
| TestRadar.IntensityCharVisible | utils/testRadar.js:9 | no generated character is white space, a space or a line feed, and its decoded intensity is the generated one |
| TestRadar.JoinLinesLast | utils/testRadar.js:10-12 | the joined text ends with the last character of the last row |
| TestRadar.GradientTextRows | utils/testRadar.js:4-15 | the decoder's trim and split recover exactly the generated rows |
| TestRadar.DecodeGradient | utils/testRadar.js:8-10 | decoding a gradient radar gives back the generated intensity at every pixel |
| TestRadar.RoundHalfUpMonotone | utils/testRadar.js:8 | `Math.round` keeps the order of values |
| TestRadar.PercentMonotone | utils/testRadar.js:8 | a larger numerator gives a percentage at least as large |
| TestRadar.LeftToRightShape | utils/testRadar.js:8 | gradient 1 depends only on the column, does not decrease eastwards, and column 0 is '!' |
| TestRadar.TopToBottomShape | utils/testRadar.js:20 | gradient 2 depends only on the row and does not decrease southwards |
| TestRadar.MirroredGradients | utils/testRadar.js:32-44 | gradient 3 is gradient 1 mirrored left to right; gradient 4 is gradient 2 mirrored top to bottom |
| TestRadar.TestRadarAt | utils/testRadar.js:98-99 | defined exactly for indices inside `radarIDs`, where it is that entry |
| TestRadar.NoTestRadarInRelease | utils/testRadar.js:67-95 | outside development builds no index has a test radar |
| App.AppThresholdsAscending | App.js:109 | the App.js thresholds strictly ascend |
| App.AppRingKeepsPoints | App.js:123-126 | the smoother receives every point of the ring, each projected, none removed |
| App.AppOrigin | App.js:79-84 | pixel (0, 0) maps exactly to longitude 103.565 and latitude 1.475 |
| App.InlineTestRadar | App.js:174-185 | the inline test radar is gradient 1 of utils/testRadar.js on the 217 x 120 grid |
| App.InlineTestRadarDecodes | App.js:174-185 | the App.js decoder reads it back: cell (x, y) is `round(x / 217 * 100)` |
| App.Reversed | App.js:283 | element `k` of the reversal is element `n - 1 - k` of the input |
| App.ReversedTwice | App.js:283 | reversing twice gives back the sequence |
| App.ReverseInPlace | App.js:283 | `docs.reverse()` leaves the reversed contents in the same array |
| App.DocIds | App.js:285-287 | the ids of the documents, in order |
| App.FrameIds | App.js:284-299 | a batch of `n > 0` documents has `2n - 1` frames |
| App.FrameIdsAt | App.js:284-299 | frame `2k` is document `k`'s id, and frame `2k + 1` is the mid id of documents `k` and `k + 1` |
| App.FrameGridAt | App.js:287-296 | frame `2k`'s grid is document `k` decoded; frame `2k + 1`'s grid is the mean of documents `k` and `k + 1` decoded |
| App.EvenFrame | App.js:287 | frame `2k` is document `k` decoded |
| App.OddFrame | App.js:295-296 | frame `2k + 1` is the mean of documents `k` and `k + 1` decoded |
| App.FramesOfDoc | App.js:284-299 | document `k`'s frame id and grid, and those of the mid frame after it |
| App.ProgressPush | App.js:288-289 | appending the next frame's cached features keeps every block equal to its frame's cached features and the collection their concatenation |
| App.ColdPrefixPush | App.js:288-289 | from empty caches, appending the next frame's fresh features keeps every block equal to the features computed from its grid |
| App.FreshFrame | App.js:284-303 | with distinct frame ids and only earlier frames cached, the next frame is not yet cached |
| App.KeysAmongPush | App.js:288-289 | caching the next frame keeps every cache key among the frames read |
| App.DataOf | App.js:286 | the snapshots are the documents' data, in order |
| App.DataOfNext | App.js:301 | reading one more document appends its data |
| App.Frames | App.js:284-299 | a batch's frame count is 0, or twice the documents minus one |
| App.FlattenLength | App.js:289-298 | the collection's length is the sum of the frames' feature counts |
| App.FlattenMembers | App.js:289-298 | a feature in the collection belongs to some frame's features |
| App.FlattenContains | App.js:289-298 | every feature of every frame is in the collection; with `FlattenMembers`, a feature is in the collection exactly when it is in some frame's features |
| App.FlattenAppend | App.js:289 | pushing a frame's features appends them |
| App.ColdPrefixComplete | App.js:284-303 | starting from empty caches with distinct frame ids, the blocks pushed are the features computed from each frame's own grid |
| App.ProgressComplete | App.js:284-303 | after the loop every frame is cached and the collection is the cached features of all frames, in frame order |
| App.KeysAmongMore | App.js:284-303 | keys among the first frames are among any longer prefix |
| App.DistinctDocIds | App.js:295 | distinct frame ids imply distinct document ids |
| App.App.constructor | App.js:79-150 | the App.js pipeline: the 217 x 120 grid, the App.js thresholds and the project-then-smooth ring transform, with empty caches |
| App.App.ProcessSnapshots | App.js:278-312 | reverses `docs` in place and sets the snapshots to the documents' data, oldest first. The shape is every frame's cached features in frame order. Caches only grow and loading ends. From empty caches with distinct frame ids, the shape is the features computed from each frame's own grid |
| App.App.ReadFrames | App.js:284-303 | the loop: its outputs are the snapshots, every frame's features in frame order, and caches that only grew |
| App.App.ReadDocs | App.js:284-302 | the loop over the documents keeps the loop's state from the first document to the last |
| App.App.ReadingStarts | App.js:280-284 | the loop's state holds before the first document |
| App.App.ReadingEnds | App.js:284-303 | after the last document the loop's state gives the results of `processSnapshots` |
| App.App.ReadDoc | App.js:285-301 | one turn of the loop moves the loop's state from document `i` to document `i + 1` |
| App.App.ReadOwnFrame | App.js:285-289 | decodes document `i` through the cache and pushes its features |
| App.App.ReadMidFrame | App.js:291-299 | decodes document `i + 1` through the cache, makes the mid grid through the cache and pushes its features |
| App.App.DecodeDoc | App.js:287 | the grid of a document through the decode cache; from empty caches, it is the document's decoded text |
| App.App.MidFrame | App.js:295-296 | the mid grid through its cache; from empty caches, it is the mean of the two grids |
| App.App.PushFrame | App.js:288-289 | the frame's features through their cache are appended to the collection |
| Player.MaxCoverage | components/Player.js:57-58 | the largest Singapore coverage of the batch, attained by some snapshot |
| Player.TickNext | components/Player.js:85-94 | a tick never sets `fwd` and never starts playback. It keeps the index in range, and either leaves the index alone, wraps it to 1 or moves it half a step |
| Player.TickDelay | components/Player.js:95 | no interval while paused; 2000 ms at the newest snapshot and 100 ms elsewhere |
| Player.PressNext | components/Player.js:137-152 | with `fwd`, jumps to the newest snapshot, clears `fwd` and keeps `playing`. Otherwise it toggles `playing`, restarting at 1 when paused at the newest snapshot. It keeps the index in range |
| Player.SlideStartNext | components/Player.js:182-185 | dragging pauses and hides the forward arrow; the index is kept |
| Player.SlideCompleteNext | components/Player.js:186-189 | releasing snaps the index to the whole step nearest `v`, inside `[1, count]` |
| Player.ValueChangeNext | components/Player.js:181 | the index follows the slider, inside the range |
| Player.SnapshotsNext | components/Player.js:78-82 | afterwards `fwd` is set exactly when it was set before or the player is paused with `0 < index < count`; index and `playing` are kept |
| Player.AppStateNext | components/Player.js:97-101 | playback continues only while the app is active |
| Player.DisplayedId | components/Player.js:65 | defined exactly when `round(index)` is between 1 and `count`, and then it is that snapshot's id |
| Player.InRangeDisplays | components/Player.js:65 | an index in range always shows a snapshot |
| Player.FloatIndex | components/Player.js:106 | a multiple of one half, within 0.25 of the index |
| Player.Resolve | components/Player.js:103-121 | silent exactly when the index is 0 or there are no snapshots. It fails exactly when `round(index)` falls outside the snapshots. Otherwise it reports the snapped index |
| Player.ResolveWhole | components/Player.js:105-109 | at a whole step `n`, `round(index)` is `n` and the id is snapshot `n`'s |
| Player.ResolveHalf | components/Player.js:111-118 | at the half step between snapshots `n` and `n + 1`, the id is the printed mean of their `dt` values |
| Player.ResolveMidFrame | components/Player.js:115 | when ids are the digits of their `dt`, a half step resolves to the mid id of the two snapshots' ids, the same `MidId` that `processSnapshots` uses |
| Player.ResolveCachedMidFrame | components/Player.js:115 | when every document's data carries the document's id, and that id is the digits of its `dt`, a half step between snapshots n and n+1 resolves to frame 2n-1 of `processSnapshots`, the id under which it cached the mid frame (App.js:295) |
| Player.InRangeResolves | components/Player.js:103-121 | from an index in range the effect always reports a frame |
| Player.TicksAdvance | components/Player.js:84-94 | playing from index 1, tick `k` is at `1 + k/2` |
| Player.PlaybackLoop | components/Player.js:84-96 | from index 1, `2(count - 1)` ticks 100 ms apart reach the newest snapshot, which is held 2000 ms. The next tick restarts at 1 when some coverage is at least 5, and stops at the newest snapshot otherwise |
| Player.PressTwice | components/Player.js:148-151 | away from the newest snapshot and without `fwd`, two presses cancel out |
| Player.PressAtNewest | components/Player.js:148-151 | pausing at the newest snapshot and pressing again plays from 1 |
| Player.SlideCompleteIdempotent | components/Player.js:186-189 | releasing at an already snapped position changes nothing |
| Player.Player.Mount | components/Player.js:29-82 | no player without snapshots; otherwise paused at the initial value, with the forward arrow the `[snapshots]` effect shows after the first render when 0 < initial value < count; in range when the initial value is |
| Player.Player.Tick | components/Player.js:84-94 | the new state is the tick rule applied to the old one, given the batch's maximum coverage; the range invariant is kept |
| Player.Player.PressPlay | components/Player.js:137-152 | the new state is the play-button rule applied to the old one; the range invariant is kept |
| Player.Player.SlidingStart | components/Player.js:182-185 | pauses and hides the forward arrow |
| Player.Player.SlidingComplete | components/Player.js:186-191 | the index becomes the nearest whole step, in range |
| Player.Player.ValueChange | components/Player.js:181 | the index follows the slider, in range |
| Player.Player.SnapshotsChanged | components/Player.js:78-82 | takes the new batch and applies the snapshots rule; a batch that does not shrink keeps the range invariant |
| Player.Player.AppStateChanged | components/Player.js:97-101 | leaving the foreground pauses; the range invariant is kept |

## Left out

- d3-contour's marching squares (`contours()`) and the Chaikin smoother are foreign code. They are function parameters that nothing is assumed about, so no property of contour geometry or of smoothing is claimed.
- The in-place `c2.pop()` in `utils/radarUtils.js` mutates the contour rings it reads. The model drops the last point of a copy and does not model aliasing with d3's output.
- Floating point: cells, coordinates and percentages are exact reals. `Math.round` is `floor(v + 0.5)` and `round(v, 4)` is `floor(v * 10000 + 0.5) / 10000`; binary representation error is not modelled.
- RadarUtils.DecodeRadar: requires that no write lands past `width * height`. In JavaScript the array would grow instead, which is not modelled. The same precondition is on `Pipeline.ConvertRadar2Values` and `App.App.ProcessSnapshots`.
- RadarUtils.GenMid: requires the second grid to be at least as long as the first. JavaScript would produce NaN cells, which are not modelled. The same precondition is on `Pipeline.GenMidValues`.
- Ids.NumberOf: only digit strings are numbers here. JavaScript's `Number` also accepts surrounding white space, signs, decimals, hexadecimal and exponents, and it loses precision above 2^53. The frame ids used are 12-digit strings.
- Ids.HalfToString: prints the exact half-sum. JavaScript switches to exponent notation at 10^21.
- Characters are Unicode scalar values, while JavaScript indexes UTF-16 code units: text holding a character above U+FFFF decodes differently (the source writes each surrogate half as its own cell, the model one cell). Radar text is ASCII.
- RadarUtils.ContourLevels: keeps the thresholds in the order given. d3-contour sorts them ascending; both threshold lists of the program already ascend (`ThresholdsAscending`, `AppThresholdsAscending`), so the order agrees for them.
- App.RainArea: `radar` is a string and `dt` a natural number by type. A document without a `radar` string makes `radar.trimEnd()` throw, which is not modelled.
- The memo caches of the projector (`convertX2Lng`, `convertY2Lat`) and of `convertRainID2Time` are invisible, because those functions are pure. They are modelled as plain functions.
- App.App.ProcessSnapshots: publishes the collection directly. `InteractionManager.runAfterInteractions` defers it, and the model has no scheduler.
- The `debounce` around the Firestore listener, the first-snapshot path, the Firestore query and the observations `fetch` are network and timer I/O.
- Player.Player.SnapshotsChanged: requires a non-empty batch. An empty batch makes the component return early before its hooks, which React does not allow once hooks have run.
- Player.Player.SlidingComplete: requires `1 <= v <= count`, the slider's own bounds. `Player.Player.ValueChange` requires the same.
- The `useInterval` timer is modelled only as the `TickDelay` function. The time between ticks is not modelled.
- The `onRainIDChange` callback, slider native props, haptics and animations are UI effects. The model only returns the values passed to them.
- `randomRadar` uses `Math.random`. The bundled snapshot JSON files of `utils/testRadar.js` are data outside the code, so `radarIDs` is a parameter.
- The unused module variable `prevIndex` of `utils/testRadar.js` is not modelled.
- `meanAngleDeg` is trigonometric floating point. The map, share sheet, info sheets and widgets are UI.
