/** The gradient test radars of utils/testRadar.js: radar texts in the same
    format the decoder reads, one row of `width` characters per line, each
    character the intensity plus 33. */
module TestRadar {
  import opened JsText
  import opened RadarUtils
  import Ids

  /** The four generators of `gradientRadars`, in order. */
  datatype Gradient = LeftToRight | TopToBottom | RightToLeft | BottomToTop

  /** `Math.round`: halves round up. */
  function RoundHalfUp(v: real): int {
    (v + 0.5).Floor
  }

  /** `~~Math.round(f * 100)` for a fraction `f` in [0, 1); the truncation to
      32 bits changes nothing in that range. */
  function Percent(n: nat, d: nat): (p: int)
    requires n < d
    ensures 0 <= p <= 100
  {
    var f := n as real / d as real;
    assert 0.0 <= f < 1.0;
    RoundHalfUp(f * 100.0)
  }

  /** The intensity a generator puts at row `i`, column `j`. */
  function GradientIntensity(g: Gradient, width: nat, height: nat, i: nat, j: nat): (v: int)
    requires i < height && j < width
    ensures 0 <= v <= 100
  {
    match g
    case LeftToRight => Percent(j, width)
    case TopToBottom => Percent(i, height)
    case RightToLeft => Percent(width - j - 1, width)
    case BottomToTop => Percent(height - i - 1, height)
  }

  /** `String.fromCharCode(intensity + 33)`. */
  function IntensityChar(v: int): char
    requires 0 <= v <= 100
  {
    (v + 33) as char
  }

  /** Row `i` of a generator's text, without its line feed. */
  function GradientRow(g: Gradient, width: nat, height: nat, i: nat): (row: string)
    requires i < height
    ensures |row| == width
  {
    seq(width, j requires 0 <= j < width => IntensityChar(GradientIntensity(g, width, height, i, j)))
  }

  /** Every row followed by a line feed. */
  function Lines(rows: seq<string>): string {
    if |rows| == 0 then "" else Lines(rows[..|rows| - 1]) + rows[|rows| - 1] + "\n"
  }

  function GradientRows(g: Gradient, width: nat, height: nat): (rows: seq<string>)
    ensures |rows| == height
  {
    seq(height, i requires 0 <= i < height => GradientRow(g, width, height, i))
  }

  /** The text a generator builds. */
  function GradientText(g: Gradient, width: nat, height: nat): string {
    Lines(GradientRows(g, width, height))
  }

  /** One generator of `gradientRadars`: nested loops over rows and columns
      appending one character per pixel and a line feed per row. */
  method GenerateGradient(g: Gradient, width: nat, height: nat) returns (radar: string)
    ensures radar == GradientText(g, width, height)
  {
    ghost var rows := GradientRows(g, width, height);
    radar := "";
    var i := 0;
    while i < height
      invariant 0 <= i <= height
      invariant radar == Lines(rows[..i])
    {
      ghost var row := GradientRow(g, width, height, i);
      var j := 0;
      while j < width
        invariant 0 <= j <= width
        invariant radar == Lines(rows[..i]) + row[..j]
      {
        var intensity := GradientIntensity(g, width, height, i, j);
        radar := radar + [IntensityChar(intensity)];
        assert row[..j + 1] == row[..j] + [row[j]];
        j := j + 1;
      }
      radar := radar + "\n";
      assert rows[..i + 1][..i] == rows[..i];
      assert row[..j] == row == rows[i];
      i := i + 1;
    }
    assert rows[..i] == rows;
  }

  /** Line-terminated rows are the joined rows plus a final line feed. */
  lemma {:induction false} LinesJoin(rows: seq<string>)
    requires |rows| > 0
    ensures Lines(rows) == JoinLines(rows) + "\n"
  {
    if |rows| > 1 {
      var init := rows[..|rows| - 1];
      LinesJoin(init);
      JoinLinesAppend(init, rows[|rows| - 1]);
      assert init + [rows[|rows| - 1]] == rows;
    }
  }

  /** No generated character is white space, let alone a space or a line feed. */
  lemma IntensityCharVisible(v: int)
    requires 0 <= v <= 100
    ensures !IsWhitespace(IntensityChar(v)) && IntensityChar(v) != ' ' && IntensityChar(v) != '\n'
    ensures Intensity(IntensityChar(v)) == v as real
  {
  }

  /** The decoder sees exactly the generator's rows. */
  lemma GradientTextRows(g: Gradient, width: nat, height: nat)
    requires width > 0 && height > 0
    ensures Rows(GradientText(g, width, height)) == GradientRows(g, width, height)
  {
    var rows := GradientRows(g, width, height);
    forall k | 0 <= k < |rows| ensures '\n' !in rows[k] {
      forall j | 0 <= j < width ensures rows[k][j] != '\n' {
        IntensityCharVisible(GradientIntensity(g, width, height, k, j));
      }
    }
    LinesJoin(rows);
    var joined := JoinLines(rows);
    TrimEndWhitespace(joined, '\n');
    JoinLinesLast(rows);
    IntensityCharVisible(GradientIntensity(g, width, height, height - 1, width - 1));
    TrimEndKeeps(joined);
    SplitJoin(rows);
  }

  /** Joined rows end with the last character of the last row. */
  lemma {:induction false} JoinLinesLast(rows: seq<string>)
    requires |rows| > 0 && |rows[|rows| - 1]| > 0
    ensures var s := JoinLines(rows); |s| > 0 && s[|s| - 1] == rows[|rows| - 1][|rows[|rows| - 1]| - 1]
  {
    if |rows| > 1 {
      JoinLinesLast(rows[1..]);
    }
  }

  /** Decoding a generated radar recovers the generator's intensity at every
      pixel (decode after encode is the identity on gradient grids). */
  lemma DecodeGradient(g: Gradient, c: GridConfig, y: nat, x: nat)
    requires y < c.height && x < c.width
    ensures var grid := Decoded(GradientText(g, c.width, c.height), c);
      && |grid| == c.width * c.height && y * c.width + x < |grid|
      && grid[y * c.width + x] == GradientIntensity(g, c.width, c.height, y, x) as real
  {
    var radar := GradientText(g, c.width, c.height);
    var rows := GradientRows(g, c.width, c.height);
    GradientTextRows(g, c.width, c.height);
    DecodedCell(radar, c, y, x);
    var row := rows[y];
    IntensityCharVisible(GradientIntensity(g, c.width, c.height, y, 0));
    IntensityCharVisible(GradientIntensity(g, c.width, c.height, y, x));
    assert FirstNonWhitespace(row) == 0;
    assert Writes(row, x);
  }

  /** `Math.round` never reverses the order of two values. */
  lemma RoundHalfUpMonotone(u: real, v: real)
    requires u <= v
    ensures RoundHalfUp(u) <= RoundHalfUp(v)
  {
    var fu, fv := (u + 0.5).Floor, (v + 0.5).Floor;
    assert fu as real <= u + 0.5 <= v + 0.5 < fv as real + 1.0;
  }

  /** A larger numerator gives a larger percentage. */
  lemma PercentMonotone(n1: nat, n2: nat, d: nat)
    requires n1 <= n2 < d
    ensures Percent(n1, d) <= Percent(n2, d)
  {
    var r1, r2 := n1 as real / d as real, n2 as real / d as real;
    assert r1 <= r2;
    RoundHalfUpMonotone(r1 * 100.0, r2 * 100.0);
  }

  /** Gradient 1 depends on the column only, grows from west to east and
      starts at intensity 0, the character '!'. */
  lemma LeftToRightShape(width: nat, height: nat, i1: nat, i2: nat, j1: nat, j2: nat)
    requires i1 < height && i2 < height && j1 <= j2 < width
    ensures GradientIntensity(LeftToRight, width, height, i1, j1)
         <= GradientIntensity(LeftToRight, width, height, i2, j2)
    ensures GradientIntensity(LeftToRight, width, height, i1, j1)
         == GradientIntensity(LeftToRight, width, height, i2, j1)
    ensures IntensityChar(GradientIntensity(LeftToRight, width, height, i1, 0)) == '!'
  {
    PercentMonotone(j1, j2, width);
  }

  /** Gradient 2 depends on the row only and grows from north to south. */
  lemma TopToBottomShape(width: nat, height: nat, i1: nat, i2: nat, j1: nat, j2: nat)
    requires i1 <= i2 < height && j1 < width && j2 < width
    ensures GradientIntensity(TopToBottom, width, height, i1, j1)
         <= GradientIntensity(TopToBottom, width, height, i2, j2)
    ensures GradientIntensity(TopToBottom, width, height, i1, j1)
         == GradientIntensity(TopToBottom, width, height, i1, j2)
  {
    PercentMonotone(i1, i2, height);
  }

  /** Gradients 3 and 4 are gradients 1 and 2 mirrored. */
  lemma MirroredGradients(width: nat, height: nat, i: nat, j: nat)
    requires i < height && j < width
    ensures GradientIntensity(RightToLeft, width, height, i, j)
         == GradientIntensity(LeftToRight, width, height, i, width - 1 - j)
    ensures GradientIntensity(BottomToTop, width, height, i, j)
         == GradientIntensity(TopToBottom, width, height, height - 1 - i, j)
  {
  }

  /** `radarIDs`: the bundled snapshots in development builds, nothing otherwise. */
  function RadarIds<T>(dev: bool, bundled: seq<T>): seq<T> {
    if dev then bundled else []
  }

  /** `testRadar(i)`: the `i`-th entry of `radarIDs`, undefined (None) outside it. */
  function TestRadarAt<T>(radarIds: seq<T>, i: int): (r: Ids.Option<T>)
    ensures r.Some? <==> 0 <= i < |radarIds|
    ensures r.Some? ==> r.value == radarIds[i]
  {
    if 0 <= i < |radarIds| then Ids.Some(radarIds[i]) else Ids.None
  }

  /** Outside development builds there is no test radar at any index. */
  lemma NoTestRadarInRelease<T>(bundled: seq<T>, i: int)
    ensures TestRadarAt(RadarIds(false, bundled), i) == Ids.None
  {
  }
}
