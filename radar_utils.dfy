/** The radar-to-geometry pipeline of utils/radarUtils.js: decoding a radar
    text into an intensity grid, the mid-frame grid between two grids, the
    pixel-to-longitude/latitude projection, assembling GeoJSON features from
    the contour levels, and the per-id memo caches around the three stages.

    The contouring (d3-contour's marching squares) and the Chaikin smoothing
    are foreign code: they appear as function-valued parameters about which
    nothing is assumed. */
module RadarUtils {
  import opened JsText

  /** Grid dimensions and the geographic bounding box of the radar image. */
  datatype Config = Config(
    width: nat, height: nat,
    lowerLat: real, upperLat: real,
    lowerLong: real, upperLong: real)

  /** A configuration the projection can divide by. */
  type GridConfig = c: Config | c.width > 0 && c.height > 0
    witness Config(1, 1, 0.0, 1.0, 0.0, 1.0)

  /** The bounding box has its corners the right way round. */
  predicate Oriented(c: Config) {
    c.lowerLong < c.upperLong && c.lowerLat < c.upperLat
  }

  function Size(c: Config): nat {
    c.width * c.height
  }

  /** A dense row-major intensity grid; cell `y * width + x` is pixel (x, y). */
  type Grid = seq<real>

  // ---------------------------------------------------------------------------
  // Grid decoder (convertRadar2Values)
  // ---------------------------------------------------------------------------

  /** The rows the decoder walks: trailing white space trimmed, split at line feeds. */
  function Rows(radar: string): seq<string> {
    SplitLines(TrimEnd(radar))
  }

  /** `char.charCodeAt() - 33`; codes below 33 give negative intensities. */
  function Intensity(c: char): real {
    (c as int - 33) as real
  }

  /** Column `x` of `row` is written: it lies at or after the row's first
      non-white-space character (or anywhere in the row when the row is all
      white space, as the search then returns -1) and is not a space. */
  predicate Writes(row: string, x: int) {
    0 <= x < |row| && FirstNonWhitespace(row) <= x && row[x] != ' '
  }

  /** The value of cell `i` after the first `k` rows are written: the last of
      those rows that writes index `i` (at column `i - y * width`) decides it,
      and a cell no row writes keeps its initial 0. */
  function CellAfter(rows: seq<string>, width: nat, k: nat, i: int): real
    requires k <= |rows|
  {
    if k == 0 then 0.0
    else
      var y := k - 1;
      if Writes(rows[y], i - y * width) then Intensity(rows[y][i - y * width])
      else CellAfter(rows, width, y, i)
  }

  /** Every write lands inside the grid. JavaScript arrays grow when written
      past their length; the model requires that this does not happen. */
  predicate FitsGrid(rows: seq<string>, width: nat, size: nat) {
    forall y, x :: 0 <= y < |rows| && 0 <= x < |rows[y]| && Writes(rows[y], x) ==> y * width + x < size
  }

  /** The grid `convertRadar2Values` returns for a radar text. */
  function Decoded(radar: string, c: Config): Grid {
    var rows := Rows(radar);
    seq(Size(c), i => CellAfter(rows, c.width, |rows|, i))
  }

  /** `convertRadar2Values(id, radar)` without its memo: a zero-filled array of
      `width * height` cells written row by row from the first non-white-space
      character of each row. */
  method DecodeRadar(radar: string, c: GridConfig) returns (values: array<real>)
    requires FitsGrid(Rows(radar), c.width, Size(c))
    ensures values[..] == Decoded(radar, c)
  {
    var rows := Rows(radar);
    values := new real[Size(c)](_ => 0.0);
    var y := 0;
    while y < |rows|
      invariant 0 <= y <= |rows|
      invariant values.Length == Size(c)
      invariant forall i :: 0 <= i < values.Length ==> values[i] == CellAfter(rows, c.width, y, i)
    {
      DecodeRow(values, rows, c.width, y);
      y := y + 1;
    }
    assert values[..] == Decoded(radar, c);
  }

  /** One turn of the decoder's outer loop: row `y` is written from its
      first non-white-space character on, skipping spaces. */
  method DecodeRow(values: array<real>, rows: seq<string>, width: nat, y: nat)
    requires y < |rows| && FitsGrid(rows, width, values.Length)
    requires forall i :: 0 <= i < values.Length ==> values[i] == CellAfter(rows, width, y, i)
    modifies values
    ensures forall i :: 0 <= i < values.Length ==> values[i] == CellAfter(rows, width, y + 1, i)
  {
    var chars := rows[y];
    var start := y * width;
    var x := FirstNonWhitespace(chars);
    while x < |chars|
      invariant FirstNonWhitespace(chars) <= x <= |chars|
      invariant forall i :: 0 <= i < values.Length ==>
        values[i] == if Writes(chars, i - start) && i - start < x
                     then Intensity(chars[i - start])
                     else CellAfter(rows, width, y, i)
    {
      // `chars[-1]` is undefined, so a search result of -1 writes nothing at -1
      if 0 <= x && chars[x] != ' ' {
        assert Writes(rows[y], x);
        values[start + x] := Intensity(chars[x]);
      }
      x := x + 1;
    }
  }

  /** At most `height` rows of at most `width` characters each. */
  predicate WellFormed(rows: seq<string>, c: Config) {
    |rows| <= c.height && forall y :: 0 <= y < |rows| ==> |rows[y]| <= c.width
  }

  /** A positive multiple of `width` is at least `width`. */
  lemma MultipleAtLeast(k: int, width: nat)
    requires k >= 1
    ensures k * width >= width
  {
    assert k * width == (k - 1) * width + width;
  }

  /** A row index and a column below `width` determine the cell index. */
  lemma CellIndexUnique(y: int, y': int, x: int, x': int, width: nat)
    requires 0 <= x < width && 0 <= x' < width
    requires y * width + x == y' * width + x'
    ensures y == y' && x == x'
  {
    if y < y' {
      assert y' * width - y * width == (y' - y) * width;
      MultipleAtLeast(y' - y, width);
    } else if y > y' {
      assert y * width - y' * width == (y - y') * width;
      MultipleAtLeast(y - y', width);
    }
  }

  /** Cell (x, y) of a `width` by `height` grid lies inside it. */
  lemma CellInGrid(y: nat, x: nat, width: nat, height: nat)
    requires y < height && x < width
    ensures y * width + x < width * height
  {
    var rest := height - y;
    assert width * height == y * width + rest * width;
    MultipleAtLeast(rest, width);
  }

  lemma WellFormedFits(rows: seq<string>, c: Config)
    requires WellFormed(rows, c)
    ensures FitsGrid(rows, c.width, Size(c))
  {
    forall y, x | 0 <= y < |rows| && 0 <= x < |rows[y]| && Writes(rows[y], x)
      ensures y * c.width + x < Size(c)
    {
      CellInGrid(y, x, c.width, c.height);
    }
  }

  /** In well-formed text no row spills into another, so cell (x, y) after
      `k` rows is written by row `y` alone. */
  lemma {:induction false} CellAfterWellFormed(rows: seq<string>, c: Config, k: nat, y: nat, x: nat)
    requires WellFormed(rows, c) && k <= |rows| && x < c.width
    ensures CellAfter(rows, c.width, k, y * c.width + x)
         == if y < k && Writes(rows[y], x) then Intensity(rows[y][x]) else 0.0
  {
    if k > 0 {
      var y' := k - 1;
      var i := y * c.width + x;
      var x' := i - y' * c.width;
      if Writes(rows[y'], x') {
        assert x' < c.width;
        CellIndexUnique(y, y', x, x', c.width);
      } else {
        CellAfterWellFormed(rows, c, y', y, x);
        if y == y' {
          assert x' == x;
        }
      }
    }
  }

  /** Decoding well-formed text: the character at row `y`, column `x` sets
      cell `y * width + x` to its code minus 33 unless it is a space or part
      of the row's leading white space; every other cell is 0. */
  lemma DecodedCell(radar: string, c: Config, y: nat, x: nat)
    requires WellFormed(Rows(radar), c) && y < c.height && x < c.width
    ensures y * c.width + x < |Decoded(radar, c)|
    ensures var rows := Rows(radar);
      Decoded(radar, c)[y * c.width + x]
        == if y < |rows| && Writes(rows[y], x) then Intensity(rows[y][x]) else 0.0
  {
    var rows := Rows(radar);
    var i := y * c.width + x;
    CellInGrid(y, x, c.width, c.height);
    var grid := Decoded(radar, c);
    assert |grid| == Size(c) && i < |grid|;
    assert grid[i] == CellAfter(rows, c.width, |rows|, i);
    CellAfterWellFormed(rows, c, |rows|, y, x);
  }

  /** A row made only of spaces writes nothing, so it decodes to zeros. */
  lemma SpaceRowWritesNothing(row: string, x: int)
    requires forall j :: 0 <= j < |row| ==> row[j] == ' '
    ensures !Writes(row, x)
  {
  }

  // ---------------------------------------------------------------------------
  // Temporal interpolator (genMidValues)
  // ---------------------------------------------------------------------------

  /** The mid-frame grid: the cell-wise mean, as long as the first grid. */
  function Mid(a: Grid, b: Grid): Grid
    requires |b| >= |a|
  {
    seq(|a|, i requires 0 <= i < |a| => (a[i] + b[i]) / 2.0)
  }

  /** `genMidValues(id, values1, values2)` without its memo. */
  method GenMid(values1: Grid, values2: Grid) returns (mid: array<real>)
    requires |values2| >= |values1|
    ensures mid[..] == Mid(values1, values2)
  {
    mid := new real[|values1|];
    var i := 0;
    while i < |values1|
      invariant 0 <= i <= |values1|
      invariant forall j :: 0 <= j < i ==> mid[j] == (values1[j] + values2[j]) / 2.0
    {
      mid[i] := (values1[i] + values2[i]) / 2.0;
      i := i + 1;
    }
    assert mid[..] == Mid(values1, values2);
  }

  /** The mid frame does not depend on the order of its two frames. */
  lemma {:induction false} MidSymmetric(a: Grid, b: Grid)
    requires |a| == |b|
    ensures Mid(a, b) == Mid(b, a)
  {
    assert forall i :: 0 <= i < |a| ==> Mid(a, b)[i] == Mid(b, a)[i];
  }

  /** The mid frame between a grid and itself is that grid. */
  lemma {:induction false} MidIdempotent(a: Grid)
    ensures Mid(a, a) == a
  {
    assert forall i :: 0 <= i < |a| ==> Mid(a, a)[i] == a[i];
  }

  /** Every mid cell lies between the two cells it was made from. */
  lemma MidBetween(a: Grid, b: Grid, i: nat)
    requires |b| >= |a| && i < |a|
    ensures a[i] <= b[i] ==> a[i] <= Mid(a, b)[i] <= b[i]
    ensures b[i] <= a[i] ==> b[i] <= Mid(a, b)[i] <= a[i]
  {
  }

  // ---------------------------------------------------------------------------
  // Coordinate projector (convertX2Lng, convertY2Lat)
  // ---------------------------------------------------------------------------

  /** `round(v, 4)` of @turf/helpers: `Math.round(v * 10000) / 10000`, with
      halves rounded up. */
  function Round4(v: real): real {
    (v * 10000.0 + 0.5).Floor as real / 10000.0
  }

  /** `r` has at most four decimals. */
  predicate IsQuantum(r: real) {
    (r * 10000.0).Floor as real == r * 10000.0
  }

  function Abs(v: real): real {
    if v < 0.0 then -v else v
  }

  /** The longitude of pixel column `x` before rounding: the column's share
      of the width, applied to the longitude span. */
  function LngOf(c: GridConfig, x: real): real {
    c.lowerLong + (x / c.width as real) * Abs(c.upperLong - c.lowerLong)
  }

  /** The latitude of pixel row `y` before rounding, north at the top. */
  function LatOf(c: GridConfig, y: real): real {
    c.upperLat - (y / c.height as real) * Abs(c.upperLat - c.lowerLat)
  }

  /** `convertX2Lng(x)`: longitude of pixel column `x`. */
  function X2Lng(c: GridConfig, x: real): real {
    Round4(LngOf(c, x))
  }

  /** `convertY2Lat(y)`: latitude of pixel row `y`, north at the top. */
  function Y2Lat(c: GridConfig, y: real): real {
    Round4(LatOf(c, y))
  }

  /** Rounding moves a value by at most half a unit in the fourth decimal. */
  lemma Round4Near(v: real)
    ensures v - 0.00005 < Round4(v) <= v + 0.00005
  {
    var f := (v * 10000.0 + 0.5).Floor;
    assert f as real <= v * 10000.0 + 0.5 < f as real + 1.0;
  }

  /** Rounding never reverses the order of two values. */
  lemma Round4Monotone(u: real, v: real)
    requires u <= v
    ensures Round4(u) <= Round4(v)
  {
    var fu, fv := (u * 10000.0 + 0.5).Floor, (v * 10000.0 + 0.5).Floor;
    assert fu as real <= u * 10000.0 + 0.5 <= v * 10000.0 + 0.5 < fv as real + 1.0;
    assert fu <= fv;
  }

  /** Rounded values have at most four decimals. */
  lemma Round4IsQuantum(v: real)
    ensures IsQuantum(Round4(v))
  {
    var f := (v * 10000.0 + 0.5).Floor;
    assert Round4(v) * 10000.0 == f as real;
  }

  /** Values with at most four decimals are left as they are. */
  lemma Round4Fixed(v: real)
    requires IsQuantum(v)
    ensures Round4(v) == v
  {
    var n := (v * 10000.0).Floor;
    assert (v * 10000.0 + 0.5).Floor == n;
  }

  /** A larger share of a positive length, scaled by a non-negative
      distance, is at least as large. */
  lemma ShareMonotone(u1: real, u2: real, n: real, d: real)
    requires u1 <= u2 && n > 0.0 && d >= 0.0
    ensures (u1 / n) * d <= (u2 / n) * d
  {
    var q := (u2 - u1) / n;
    assert q * n == u2 - u1;
    assert q >= 0.0;
    assert u2 / n == u1 / n + q;
    assert (u2 / n) * d == (u1 / n) * d + q * d;
    assert q * d >= 0.0;
  }

  /** Longitude does not decrease from west to east. */
  lemma X2LngMonotone(c: GridConfig, x1: real, x2: real)
    requires x1 <= x2
    ensures X2Lng(c, x1) <= X2Lng(c, x2)
  {
    ShareMonotone(x1, x2, c.width as real, Abs(c.upperLong - c.lowerLong));
    Round4Monotone(LngOf(c, x1), LngOf(c, x2));
  }

  /** Latitude does not increase from north to south. */
  lemma Y2LatAntitone(c: GridConfig, y1: real, y2: real)
    requires y1 <= y2
    ensures Y2Lat(c, y2) <= Y2Lat(c, y1)
  {
    ShareMonotone(y1, y2, c.height as real, Abs(c.upperLat - c.lowerLat));
    Round4Monotone(LatOf(c, y2), LatOf(c, y1));
  }

  /** Pixel 0 is the west and north edge; pixel `width` (`height`) is the
      east (south) edge, up to rounding to four decimals. */
  lemma ProjectionEndpoints(c: GridConfig)
    requires Oriented(c)
    ensures X2Lng(c, 0.0) == Round4(c.lowerLong)
    ensures Y2Lat(c, 0.0) == Round4(c.upperLat)
    ensures X2Lng(c, c.width as real) == Round4(c.upperLong)
    ensures Y2Lat(c, c.height as real) == Round4(c.lowerLat)
    ensures Abs(X2Lng(c, c.width as real) - c.upperLong) <= 0.00005
    ensures Abs(Y2Lat(c, c.height as real) - c.lowerLat) <= 0.00005
  {
    var w, h := c.width as real, c.height as real;
    assert w / w == 1.0 && h / h == 1.0;
    assert LngOf(c, 0.0) == c.lowerLong && LatOf(c, 0.0) == c.upperLat;
    assert LngOf(c, w) == c.upperLong && LatOf(c, h) == c.lowerLat;
    Round4Near(c.upperLong);
    Round4Near(c.lowerLat);
  }

  /** Every pixel column projects into the rounded longitude range, on a
      four-decimal value. */
  lemma LngInBox(c: GridConfig, x: real)
    requires Oriented(c)
    requires 0.0 <= x <= c.width as real
    ensures Round4(c.lowerLong) <= X2Lng(c, x) <= Round4(c.upperLong)
    ensures IsQuantum(X2Lng(c, x))
  {
    ProjectionEndpoints(c);
    X2LngMonotone(c, 0.0, x);
    X2LngMonotone(c, x, c.width as real);
    Round4IsQuantum(LngOf(c, x));
  }

  /** Every pixel row projects into the rounded latitude range, on a
      four-decimal value. */
  lemma LatInBox(c: GridConfig, y: real)
    requires Oriented(c)
    requires 0.0 <= y <= c.height as real
    ensures Round4(c.lowerLat) <= Y2Lat(c, y) <= Round4(c.upperLat)
    ensures IsQuantum(Y2Lat(c, y))
  {
    ProjectionEndpoints(c);
    Y2LatAntitone(c, 0.0, y);
    Y2LatAntitone(c, y, c.height as real);
    Round4IsQuantum(LatOf(c, y));
  }

  // ---------------------------------------------------------------------------
  // Feature assembly (convertValues2GeoJSON)
  // ---------------------------------------------------------------------------

  /** A point in grid-pixel space. */
  datatype Point = Point(x: real, y: real)

  /** A GeoJSON position, longitude first (section 3.1.1 of RFC 7946). */
  datatype Position = Position(lng: real, lat: real)

  datatype GeometryType = Polygon | MultiPolygon

  /** One contour level as d3-contour returns it: a MultiPolygon of rings in
      pixel space, tagged with its threshold. */
  datatype Contour = Contour(kind: GeometryType, value: real, coordinates: seq<seq<seq<Point>>>)

  datatype Properties = Properties(intensity: real, id: string)

  datatype Geometry = Geometry(kind: GeometryType, coordinates: seq<seq<seq<Position>>>)

  /** A GeoJSON Feature (section 3.2 of RFC 7946). */
  datatype Feature = Feature(properties: Properties, geometry: Geometry)

  /** The marching-squares sweep for one threshold (d3-contour's
      `contour(values, threshold)`): foreign code, left uninterpreted. */
  type Isoband = (Grid, real) -> seq<seq<seq<Point>>>

  /** What becomes of one ring of a contour. */
  type RingTransform = seq<Point> -> seq<Position>

  /** d3-contour's `contours(values)`: one MultiPolygon per threshold, in
      threshold order. */
  function ContourLevels(isoband: Isoband, thresholds: seq<real>, grid: Grid): (levels: seq<Contour>)
    ensures |levels| == |thresholds|
    ensures forall k :: 0 <= k < |levels| ==> levels[k].value == thresholds[k]
  {
    seq(|thresholds|, k requires 0 <= k < |thresholds| =>
      Contour(MultiPolygon, thresholds[k], isoband(grid, thresholds[k])))
  }

  /** The thresholds utils/radarUtils.js configures the contour generator with. */
  const Thresholds: seq<real> := [4.0, 10.0, 20.0, 30.0, 40.0, 50.0, 60.0, 70.0, 80.0, 85.0, 90.0, 95.0, 97.5]

  predicate StrictlyAscending(s: seq<real>) {
    forall i, j :: 0 <= i < j < |s| ==> s[i] < s[j]
  }

  lemma ThresholdsAscending()
    ensures StrictlyAscending(Thresholds)
  {
  }

  function Project(c: GridConfig, p: Point): Position {
    Position(X2Lng(c, p.x), Y2Lat(c, p.y))
  }

  function ProjectRing(c: GridConfig, ring: seq<Point>): (r: seq<Position>)
    ensures |r| == |ring|
  {
    seq(|ring|, k requires 0 <= k < |ring| => Project(c, ring[k]))
  }

  /** `ring.pop()`: the ring without its last point; an empty ring stays empty. */
  function DropLast(ring: seq<Point>): seq<Point> {
    if |ring| == 0 then ring else ring[..|ring| - 1]
  }

  /** utils/radarUtils.js: drop the closing point, smooth, then project. */
  function UtilsRing(c: GridConfig, smooth: seq<Point> -> seq<Point>, ring: seq<Point>): seq<Position> {
    ProjectRing(c, smooth(DropLast(ring)))
  }

  /** Applies a ring transform to every ring, keeping the polygon/ring nesting. */
  function MapPolygons(t: RingTransform, coords: seq<seq<seq<Point>>>): (r: seq<seq<seq<Position>>>)
    ensures |r| == |coords|
    ensures forall p :: 0 <= p < |r| ==> |r[p]| == |coords[p]|
  {
    seq(|coords|, p requires 0 <= p < |coords| =>
      seq(|coords[p]|, q requires 0 <= q < |coords[p]| => t(coords[p][q])))
  }

  /** The Feature made from one contour level of frame `id`. */
  function ToFeature(t: RingTransform, id: string, level: Contour): Feature {
    Feature(Properties(level.value, id), Geometry(level.kind, MapPolygons(t, level.coordinates)))
  }

  /** The contour levels whose coordinate list is not empty, in order. */
  function Kept(levels: seq<Contour>): seq<Contour> {
    if |levels| == 0 then []
    else
      var last := levels[|levels| - 1];
      Kept(levels[..|levels| - 1]) + if |last.coordinates| > 0 then [last] else []
  }

  /** Exactly the non-empty levels are kept. */
  lemma {:induction false} KeptMembers(levels: seq<Contour>)
    ensures forall l :: l in Kept(levels) <==> l in levels && |l.coordinates| > 0
  {
    if |levels| > 0 {
      var init := levels[..|levels| - 1];
      KeptMembers(init);
      assert levels == init + [levels[|levels| - 1]];
    }
  }

  /** Filtering keeps the levels in their order, so ascending thresholds stay ascending. */
  lemma {:induction false} KeptAscending(levels: seq<Contour>)
    requires forall i, j :: 0 <= i < j < |levels| ==> levels[i].value < levels[j].value
    ensures forall i, j :: 0 <= i < j < |Kept(levels)| ==> Kept(levels)[i].value < Kept(levels)[j].value
  {
    if |levels| > 0 {
      var init := levels[..|levels| - 1];
      var last := levels[|levels| - 1];
      KeptAscending(init);
      KeptMembers(init);
      var kept := Kept(init);
      forall i | 0 <= i < |kept| ensures kept[i].value < last.value {
        assert kept[i] in init;
        var m :| 0 <= m < |init| && init[m] == kept[i];
        assert levels[m] == init[m];
      }
      var all := Kept(levels);
      assert all == kept + if |last.coordinates| > 0 then [last] else [];
      forall i, j | 0 <= i < j < |all| ensures all[i].value < all[j].value {
        if j == |kept| {
          assert all[i] == kept[i] && all[j] == last;
        } else {
          assert all[i] == kept[i] && all[j] == kept[j];
        }
      }
    }
  }

  /** The features of one frame: one per non-empty level, in level order. */
  function FeaturesOf(t: RingTransform, id: string, levels: seq<Contour>): seq<Feature> {
    var kept := Kept(levels);
    seq(|kept|, k requires 0 <= k < |kept| => ToFeature(t, id, kept[k]))
  }

  /** `convertValues2GeoJSON(id, values)` without its memo, given the contour
      levels of `values`: skips the empty levels and pushes one tagged
      Feature per remaining level. */
  method AssembleFeatures(t: RingTransform, id: string, levels: seq<Contour>) returns (results: seq<Feature>)
    ensures results == FeaturesOf(t, id, levels)
  {
    results := [];
    var i := 0;
    while i < |levels|
      invariant 0 <= i <= |levels|
      invariant results == FeaturesOf(t, id, levels[..i])
    {
      var level := levels[i];
      assert levels[..i + 1][..i] == levels[..i];
      if |level.coordinates| > 0 {
        results := results + [ToFeature(t, id, level)];
      }
      i := i + 1;
    }
    assert levels[..i] == levels;
  }

  /** Every feature is tagged with the frame id and the intensity of a level
      that has geometry, and keeps that level's polygon/ring nesting. */
  lemma FeaturesTagged(t: RingTransform, id: string, levels: seq<Contour>, k: nat)
    requires k < |FeaturesOf(t, id, levels)|
    ensures var f := FeaturesOf(t, id, levels)[k];
      && f.properties.id == id
      && |f.geometry.coordinates| > 0
      && (exists l :: l in levels && |l.coordinates| > 0 && f.properties.intensity == l.value
            && f.geometry.kind == l.kind && |f.geometry.coordinates| == |l.coordinates|)
  {
    KeptMembers(levels);
    var l := Kept(levels)[k];
    assert l in Kept(levels);
  }

  /** Levels with an empty coordinate list produce no feature, the others one each. */
  lemma {:induction false} FeatureCount(t: RingTransform, id: string, levels: seq<Contour>)
    ensures |FeaturesOf(t, id, levels)| == |levels| - CountEmpty(levels)
  {
    if |levels| > 0 {
      FeatureCount(t, id, levels[..|levels| - 1]);
    }
  }

  /** The number of levels with an empty coordinate list. */
  function CountEmpty(levels: seq<Contour>): nat {
    if |levels| == 0 then 0
    else CountEmpty(levels[..|levels| - 1]) + if |levels[|levels| - 1].coordinates| == 0 then 1 else 0
  }

  /** A frame contoured at ascending thresholds yields features of strictly
      ascending intensity, each one of the thresholds. */
  lemma FrameIntensitiesAscending(isoband: Isoband, thresholds: seq<real>, grid: Grid,
                                  t: RingTransform, id: string)
    requires StrictlyAscending(thresholds)
    ensures var fs := FeaturesOf(t, id, ContourLevels(isoband, thresholds, grid));
      && (forall i, j :: 0 <= i < j < |fs| ==> fs[i].properties.intensity < fs[j].properties.intensity)
      && (forall i :: 0 <= i < |fs| ==> fs[i].properties.intensity in thresholds)
  {
    var levels := ContourLevels(isoband, thresholds, grid);
    forall i, j | 0 <= i < j < |levels| ensures levels[i].value < levels[j].value {
      assert levels[i].value == thresholds[i] && levels[j].value == thresholds[j];
    }
    KeptAscending(levels);
    KeptMembers(levels);
    var kept := Kept(levels);
    var fs := FeaturesOf(t, id, levels);
    assert forall i :: 0 <= i < |fs| ==> fs[i].properties.intensity == kept[i].value;
    forall i | 0 <= i < |kept| ensures kept[i].value in thresholds {
      assert kept[i] in levels;
      var m :| 0 <= m < |levels| && levels[m] == kept[i];
      assert thresholds[m] == levels[m].value;
    }
  }

  /** Every feature of a frame carries the frame's id and one of the thresholds
      as its intensity. */
  lemma AssembledTagged(isoband: Isoband, thresholds: seq<real>, grid: Grid, t: RingTransform, id: string)
    ensures forall f :: f in FeaturesOf(t, id, ContourLevels(isoband, thresholds, grid)) ==>
      f.properties.id == id && f.properties.intensity in thresholds
  {
    var levels := ContourLevels(isoband, thresholds, grid);
    var fs := FeaturesOf(t, id, levels);
    forall f | f in fs ensures f.properties.id == id && f.properties.intensity in thresholds {
      var k :| 0 <= k < |fs| && fs[k] == f;
      FeaturesTagged(t, id, levels, k);
      var l :| l in levels && |l.coordinates| > 0 && f.properties.intensity == l.value;
      var m :| 0 <= m < |levels| && levels[m] == l;
      assert thresholds[m] == l.value;
    }
  }

  /** The utils ring transform removes exactly the last point before smoothing. */
  lemma UtilsRingDropsLast(c: GridConfig, smooth: seq<Point> -> seq<Point>, ring: seq<Point>, p: Point)
    ensures UtilsRing(c, smooth, ring + [p]) == ProjectRing(c, smooth(ring))
  {
    assert DropLast(ring + [p]) == ring;
  }

  /** If the smoothed ring stays inside the image, every output position is a
      four-decimal position inside the rounded bounding box. */
  lemma UtilsRingInBox(c: GridConfig, smooth: seq<Point> -> seq<Point>, ring: seq<Point>, k: nat)
    requires Oriented(c)
    requires var s := smooth(DropLast(ring));
      forall j :: 0 <= j < |s| ==> 0.0 <= s[j].x <= c.width as real && 0.0 <= s[j].y <= c.height as real
    requires k < |UtilsRing(c, smooth, ring)|
    ensures var q := UtilsRing(c, smooth, ring)[k];
      && Round4(c.lowerLong) <= q.lng <= Round4(c.upperLong)
      && Round4(c.lowerLat) <= q.lat <= Round4(c.upperLat)
      && IsQuantum(q.lng) && IsQuantum(q.lat)
  {
    var s := smooth(DropLast(ring));
    LngInBox(c, s[k].x);
    LatInBox(c, s[k].y);
  }

  // ---------------------------------------------------------------------------
  // The memoised stages (nano-memoize with maxArgs: 1)
  // ---------------------------------------------------------------------------

  /** The three memoised stages and their caches. Each cache is keyed by the
      first argument alone, so a second call with a seen id returns the first
      result whatever the other arguments are. */
  class Pipeline {
    const config: GridConfig
    const thresholds: seq<real>
    const isoband: Isoband
    const ring: RingTransform

    /** convertRadar2Values' cache, by frame id. */
    var values: map<string, Grid>
    /** convertValues2GeoJSON's cache, by frame id. */
    var features: map<string, seq<Feature>>
    /** genMidValues' cache, by mid-frame id. */
    var mids: map<string, Grid>

    constructor (config: GridConfig, thresholds: seq<real>, isoband: Isoband, ring: RingTransform)
      ensures this.config == config && this.thresholds == thresholds
      ensures this.isoband == isoband && this.ring == ring
      ensures values == map[] && features == map[] && mids == map[]
    {
      this.config := config;
      this.thresholds := thresholds;
      this.isoband := isoband;
      this.ring := ring;
      values, features, mids := map[], map[], map[];
    }

    /** What the caches keep true: every decoded grid has one cell per pixel,
        and every cached feature carries the id it is cached under and one of
        the thresholds as its intensity. */
    ghost predicate Valid()
      reads this
    {
      && (forall k :: k in values ==> |values[k]| == Size(config))
      && (forall k, f :: k in features && f in features[k] ==>
            f.properties.id == k && f.properties.intensity in thresholds)
    }

    /** The features computed for a frame whose grid is `grid`. */
    function Assembled(id: string, grid: Grid): seq<Feature>
    {
      FeaturesOf(ring, id, ContourLevels(isoband, thresholds, grid))
    }

    method ConvertRadar2Values(id: string, radar: string) returns (grid: Grid)
      requires Valid()
      requires id !in values ==> FitsGrid(Rows(radar), config.width, Size(config))
      modifies this
      ensures Valid()
      ensures id in old(values) ==> grid == old(values[id]) && values == old(values)
      ensures id !in old(values) ==> grid == Decoded(radar, config) && values == old(values)[id := grid]
      ensures features == old(features) && mids == old(mids)
    {
      if id in values {
        grid := values[id];
      } else {
        var a := DecodeRadar(radar, config);
        grid := a[..];
        values := values[id := grid];
      }
    }

    method ConvertValues2GeoJSON(id: string, grid: Grid) returns (fs: seq<Feature>)
      requires Valid()
      modifies this
      ensures Valid()
      ensures id in old(features) ==> fs == old(features[id]) && features == old(features)
      ensures id !in old(features) ==> fs == Assembled(id, grid) && features == old(features)[id := fs]
      ensures values == old(values) && mids == old(mids)
    {
      if id in features {
        fs := features[id];
      } else {
        var levels := ContourLevels(isoband, thresholds, grid);
        fs := AssembleFeatures(ring, id, levels);
        AssembledTagged(isoband, thresholds, grid, ring, id);
        features := features[id := fs];
      }
    }

    method GenMidValues(id: string, values1: Grid, values2: Grid) returns (grid: Grid)
      requires Valid()
      requires id !in mids ==> |values2| >= |values1|
      modifies this
      ensures Valid()
      ensures id in old(mids) ==> grid == old(mids[id]) && mids == old(mids)
      ensures id !in old(mids) ==> grid == Mid(values1, values2) && mids == old(mids)[id := grid]
      ensures values == old(values) && features == old(features)
    {
      if id in mids {
        grid := mids[id];
      } else {
        var a := GenMid(values1, values2);
        grid := a[..];
        mids := mids[id := grid];
      }
    }
  }
}
