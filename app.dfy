/** The screen of App.js: its own copy of the radar pipeline, fixed to a
    217 by 120 grid over Singapore, and `processSnapshots`, which turns a
    batch of rain-area documents into one feature collection holding every
    frame, real and interpolated, plus the list of snapshots the player
    steps through. */
module App {
  import opened Ids
  import opened RadarUtils
  import TestRadar

  // ---------------------------------------------------------------------------
  // Constants and the App.js copy of the pipeline
  // ---------------------------------------------------------------------------

  const Width: nat := 217
  const Height: nat := 120
  const LowerLat: real := 1.156
  const UpperLat: real := 1.475
  const LowerLong: real := 103.565
  const UpperLong: real := 104.13

  const AppConfig: GridConfig := Config(Width, Height, LowerLat, UpperLat, LowerLong, UpperLong)

  /** The contour thresholds of App.js: 5 in place of the utils' 4 and 10. */
  const AppThresholds: seq<real> := [5.0, 20.0, 30.0, 40.0, 50.0, 60.0, 70.0, 80.0, 85.0, 90.0, 95.0, 97.5]

  lemma AppThresholdsAscending()
    ensures StrictlyAscending(AppThresholds)
  {
  }

  /** The App.js ring transform: every point is projected, then the projected
      ring is smoothed (the `chaikin` package, foreign); no point is removed. */
  function AppRing(c: GridConfig, smooth: seq<Position> -> seq<Position>, ring: seq<Point>): seq<Position> {
    smooth(ProjectRing(c, ring))
  }

  /** The smoother receives the whole ring, each point projected in place. */
  lemma AppRingKeepsPoints(c: GridConfig, smooth: seq<Position> -> seq<Position>, ring: seq<Point>)
    ensures exists projected: seq<Position> ::
      && |projected| == |ring|
      && (forall k :: 0 <= k < |ring| ==> projected[k] == Project(c, ring[k]))
      && AppRing(c, smooth, ring) == smooth(projected)
  {
    var projected := ProjectRing(c, ring);
    assert forall k :: 0 <= k < |ring| ==> projected[k] == Project(c, ring[k]);
  }

  /** Pixel 0 lands exactly on the north-west corner of the bounds. */
  lemma AppOrigin()
    ensures X2Lng(AppConfig, 0.0) == 103.565
    ensures Y2Lat(AppConfig, 0.0) == 1.475
  {
    ProjectionEndpoints(AppConfig);
    assert IsQuantum(103.565) by { assert 103.565 * 10000.0 == 1035650 as real; }
    assert IsQuantum(1.475) by { assert 1.475 * 10000.0 == 14750 as real; }
    Round4Fixed(103.565);
    Round4Fixed(1.475);
  }

  /** The inline `testRadar` of App.js: the first gradient of utils/testRadar.js
      on the App.js grid. */
  method InlineTestRadar() returns (radar: string)
    ensures radar == TestRadar.GradientText(TestRadar.LeftToRight, Width, Height)
  {
    radar := TestRadar.GenerateGradient(TestRadar.LeftToRight, Width, Height);
  }

  /** Decoding the inline test radar with the App.js decoder gives, at every
      pixel, the column's share of the width in percent. */
  lemma InlineTestRadarDecodes(y: nat, x: nat)
    requires y < Height && x < Width
    ensures var grid := Decoded(TestRadar.GradientText(TestRadar.LeftToRight, Width, Height), AppConfig);
      && |grid| == Width * Height && y * Width + x < |grid|
      && grid[y * Width + x] == TestRadar.Percent(x, Width) as real
  {
    TestRadar.DecodeGradient(TestRadar.LeftToRight, AppConfig, y, x);
  }

  // ---------------------------------------------------------------------------
  // Documents and frames
  // ---------------------------------------------------------------------------

  /** The data of one rain-area document. */
  datatype RainArea = RainArea(id: string, dt: nat, radar: string, sgCoverage: real)

  /** A document of the query result: its id and its data. */
  datatype Doc = Doc(id: string, data: RainArea)

  /** The feature collection handed to the map's rain radar source. */
  datatype FeatureCollection = FeatureCollection(features: seq<Feature>)

  function Reversed<T>(s: seq<T>): (r: seq<T>)
    ensures |r| == |s|
    ensures forall k :: 0 <= k < |s| ==> r[k] == s[|s| - 1 - k]
  {
    if |s| == 0 then [] else [s[|s| - 1]] + Reversed(s[..|s| - 1])
  }

  /** Reversing twice gives back the sequence. */
  lemma ReversedTwice<T>(s: seq<T>)
    ensures Reversed(Reversed(s)) == s
  {
  }

  /** `Array.prototype.reverse`: reverses the array in place. */
  method ReverseInPlace<T>(a: array<T>)
    modifies a
    ensures a[..] == Reversed(old(a[..]))
  {
    var n := a.Length;
    var i := 0;
    while i < n / 2
      invariant 0 <= i <= n / 2
      invariant forall k :: 0 <= k < i ==> a[k] == old(a[n - 1 - k]) && a[n - 1 - k] == old(a[k])
      invariant forall k :: i <= k < n - i ==> a[k] == old(a[k])
    {
      a[i], a[n - 1 - i] := a[n - 1 - i], a[i];
      i := i + 1;
    }
  }

  function DocIds(docs: seq<Doc>): (ids: seq<string>)
    ensures |ids| == |docs| && forall k :: 0 <= k < |docs| ==> ids[k] == docs[k].id
  {
    seq(|docs|, k requires 0 <= k < |docs| => docs[k].id)
  }

  /** The frame ids of a batch in display order: each document's id, with
      the id of a mid frame between every two neighbours. */
  function FrameIds(ids: seq<string>): (frames: seq<string>)
    ensures |frames| == if |ids| == 0 then 0 else 2 * |ids| - 1
  {
    if |ids| <= 1 then ids
    else [ids[0], MidId(ids[0], ids[1])] + FrameIds(ids[1..])
  }

  /** Frame `2k` is document `k`; frame `2k + 1` is the mid frame between
      documents `k` and `k + 1`. */
  lemma {:induction false} FrameIdsAt(ids: seq<string>, k: nat)
    requires k < |ids|
    ensures FrameIds(ids)[2 * k] == ids[k]
    ensures k < |ids| - 1 ==> FrameIds(ids)[2 * k + 1] == MidId(ids[k], ids[k + 1])
  {
    if k > 0 {
      FrameIdsAt(ids[1..], k - 1);
    }
  }

  /** The grid of frame `j`: a document's decoded radar at even positions, the
      midpoint of its two neighbours at odd ones. */
  function FrameGrid(docs: seq<Doc>, c: GridConfig, j: nat): Grid
    requires j < 2 * |docs| - 1
  {
    if j % 2 == 0 then Decoded(docs[j / 2].data.radar, c)
    else Mid(Decoded(docs[j / 2].data.radar, c), Decoded(docs[j / 2 + 1].data.radar, c))
  }

  /** Frame `2k` shows document `k`; frame `2k + 1` the midpoint of
      documents `k` and `k + 1`. */
  lemma FrameGridAt(docs: seq<Doc>, c: GridConfig, k: nat)
    requires k < |docs|
    ensures var grids := FrameGrids(docs, c);
      && 2 * k < |grids| && grids[2 * k] == Decoded(docs[k].data.radar, c)
      && (k + 1 < |docs| ==>
            grids[2 * k + 1] == Mid(Decoded(docs[k].data.radar, c), Decoded(docs[k + 1].data.radar, c)))
  {
    var grids := FrameGrids(docs, c);
    assert grids[2 * k] == FrameGrid(docs, c, 2 * k);
    EvenFrame(docs, c, k);
    if k + 1 < |docs| {
      assert grids[2 * k + 1] == FrameGrid(docs, c, 2 * k + 1);
      OddFrame(docs, c, k);
    }
  }

  lemma EvenFrame(docs: seq<Doc>, c: GridConfig, k: nat)
    requires k < |docs|
    ensures FrameGrid(docs, c, 2 * k) == Decoded(docs[k].data.radar, c)
  {
    assert (2 * k) / 2 == k && (2 * k) % 2 == 0;
  }

  lemma OddFrame(docs: seq<Doc>, c: GridConfig, k: nat)
    requires k + 1 < |docs|
    ensures FrameGrid(docs, c, 2 * k + 1)
      == Mid(Decoded(docs[k].data.radar, c), Decoded(docs[k + 1].data.radar, c))
  {
    assert (2 * k + 1) / 2 == k && (2 * k + 1) % 2 == 1;
  }

  /** The data of every document, in order. */
  function DataOf(docs: seq<Doc>): (data: seq<RainArea>)
    ensures |data| == |docs| && forall k :: 0 <= k < |docs| ==> data[k] == docs[k].data
  {
    if |docs| == 0 then [] else DataOf(docs[..|docs| - 1]) + [docs[|docs| - 1].data]
  }

  /** Reading one more document appends its data. */
  lemma DataOfNext(docs: seq<Doc>, i: nat)
    requires i < |docs|
    ensures DataOf(docs[..i + 1]) == DataOf(docs[..i]) + [docs[i].data]
  {
    assert docs[..i + 1][..i] == docs[..i];
  }

  /** The grid of every frame of a batch. */
  function FrameGrids(docs: seq<Doc>, c: GridConfig): (grids: seq<Grid>)
    ensures |grids| == if |docs| == 0 then 0 else 2 * |docs| - 1
  {
    var count := if |docs| == 0 then 0 else 2 * |docs| - 1;
    seq(count, j requires 0 <= j < count => FrameGrid(docs, c, j))
  }

  /** What one turn of the loop over a batch needs to know about its frames. */
  lemma FramesOfDoc(docs: seq<Doc>, c: GridConfig, k: nat)
    requires k < |docs|
    ensures var frames, grids := Frames(docs), FrameGrids(docs, c);
      && frames[2 * k] == docs[k].id && grids[2 * k] == Decoded(docs[k].data.radar, c)
      && (k + 1 < |docs| ==> frames[2 * k + 1] == MidId(docs[k].id, docs[k + 1].id))
      && (k + 1 < |docs| ==>
            grids[2 * k + 1] == Mid(Decoded(docs[k].data.radar, c), Decoded(docs[k + 1].data.radar, c)))
  {
    FrameIdsAt(DocIds(docs), k);
    FrameGridAt(docs, c, k);
  }

  /** A complete cold prefix is the list of freshly computed blocks. */
  lemma ColdPrefixComplete(p: Pipeline, batch: seq<Doc>, blocks: seq<seq<Feature>>)
    requires |batch| > 0 && |blocks| == |Frames(batch)|
    requires ColdPrefix(p, Frames(batch), FrameGrids(batch, p.config), blocks)
    ensures blocks == ColdBlocks(p, batch)
  {
    var frames, grids := Frames(batch), FrameGrids(batch, p.config);
    forall j | 0 <= j < |blocks| ensures blocks[j] == ColdBlocks(p, batch)[j] {
      assert grids[j] == FrameGrid(batch, p.config, j);
    }
  }

  /** Once every frame is read, the blocks are the cached features of the frames. */
  lemma ProgressComplete(cache: map<string, seq<Feature>>, frames: seq<string>, blocks: seq<seq<Feature>>, geo: seq<Feature>)
    requires Progress(cache, frames, blocks, geo) && |blocks| == |frames|
    ensures forall j :: 0 <= j < |frames| ==> frames[j] in cache
    ensures geo == Flatten(Blocks(cache, frames))
  {
    assert blocks == Blocks(cache, frames);
  }

  /** The features of every frame, in order, as one list. */
  function Flatten(blocks: seq<seq<Feature>>): seq<Feature> {
    if |blocks| == 0 then [] else Flatten(blocks[..|blocks| - 1]) + blocks[|blocks| - 1]
  }

  /** The flattened list holds exactly the blocks' features, block by block. */
  lemma {:induction false} FlattenLength(blocks: seq<seq<Feature>>)
    ensures |Flatten(blocks)| == SumLengths(blocks)
  {
    if |blocks| > 0 {
      FlattenLength(blocks[..|blocks| - 1]);
    }
  }

  function SumLengths(blocks: seq<seq<Feature>>): nat {
    if |blocks| == 0 then 0 else SumLengths(blocks[..|blocks| - 1]) + |blocks[|blocks| - 1]|
  }

  /** Every feature of the flattened list comes from one of the blocks. */
  lemma {:induction false} FlattenMembers(blocks: seq<seq<Feature>>, f: Feature)
    requires f in Flatten(blocks)
    ensures exists j :: 0 <= j < |blocks| && f in blocks[j]
  {
    var init := blocks[..|blocks| - 1];
    if f in Flatten(init) {
      FlattenMembers(init, f);
      var j :| 0 <= j < |init| && f in init[j];
      assert blocks[j] == init[j];
    }
  }

  /** Conversely, every feature of every block is in the flattened list. */
  lemma {:induction false} FlattenContains(blocks: seq<seq<Feature>>, f: Feature, j: int)
    requires 0 <= j < |blocks| && f in blocks[j]
    ensures f in Flatten(blocks)
  {
    if j < |blocks| - 1 {
      FlattenContains(blocks[..|blocks| - 1], f, j);
    }
  }

  /** The cached features of every frame, in frame order. */
  function Blocks(cache: map<string, seq<Feature>>, frames: seq<string>): (blocks: seq<seq<Feature>>)
    requires forall j :: 0 <= j < |frames| ==> frames[j] in cache
    ensures |blocks| == |frames|
  {
    seq(|frames|, j requires 0 <= j < |frames| => cache[frames[j]])
  }

  /** Appending a block appends its features. */
  lemma FlattenAppend(blocks: seq<seq<Feature>>, block: seq<Feature>)
    ensures Flatten(blocks + [block]) == Flatten(blocks) + block
  {
    assert (blocks + [block])[..|blocks|] == blocks;
  }

  /** The frame ids of a batch of documents. */
  function Frames(batch: seq<Doc>): (frames: seq<string>)
    ensures |frames| == if |batch| == 0 then 0 else 2 * |batch| - 1
  {
    FrameIds(DocIds(batch))
  }

  /** The features of every frame of a batch, each computed afresh from the
      documents. */
  function ColdBlocks(p: Pipeline, batch: seq<Doc>): (blocks: seq<seq<Feature>>)
    ensures |blocks| == |Frames(batch)|
  {
    var frames := Frames(batch);
    seq(|frames|, j requires 0 <= j < |frames| => p.Assembled(frames[j], FrameGrid(batch, p.config, j)))
  }

  /** The first blocks are those of a run from empty caches. */
  ghost predicate ColdPrefix(p: Pipeline, frames: seq<string>, grids: seq<Grid>, blocks: seq<seq<Feature>>)
    requires |blocks| <= |frames| == |grids|
  {
    forall j :: 0 <= j < |blocks| ==> blocks[j] == p.Assembled(frames[j], grids[j])
  }

  /** The blocks read so far, each the cached features of its frame, and
      their concatenation. */
  ghost predicate Progress(cache: map<string, seq<Feature>>, frames: seq<string>, blocks: seq<seq<Feature>>, geo: seq<Feature>)
  {
    && |blocks| <= |frames|
    && geo == Flatten(blocks)
    && forall j :: 0 <= j < |blocks| ==> frames[j] in cache && blocks[j] == cache[frames[j]]
  }

  /** The decode cache of a run from empty caches that has decoded the first
      `decoded` documents. */
  ghost predicate ColdValues(cache: map<string, Grid>, c: GridConfig, batch: seq<Doc>, decoded: nat)
    requires decoded <= |batch|
  {
    && (forall k :: k in cache ==> k in DocIds(batch)[..decoded])
    && (forall m :: 0 <= m < decoded ==>
          batch[m].id in cache && cache[batch[m].id] == Decoded(batch[m].data.radar, c))
  }

  /** Every key of a cache is one of the first `done` frames. */
  ghost predicate KeysAmong<V>(cache: map<string, V>, frames: seq<string>, done: nat)
    requires done <= |frames|
  {
    forall k :: k in cache ==> k in frames[..done]
  }

  /** Keys among the first frames are among any longer prefix. */
  lemma KeysAmongMore<V>(cache: map<string, V>, frames: seq<string>, done: nat, more: nat)
    requires done <= more <= |frames| && KeysAmong(cache, frames, done)
    ensures KeysAmong(cache, frames, more)
  {
    forall k | k in cache ensures k in frames[..more] {
      var m :| 0 <= m < done && frames[..done][m] == k;
      assert frames[..more][m] == k;
    }
  }

  /** Distinct frame ids mean distinct document ids. */
  lemma DistinctDocIds(batch: seq<Doc>)
    requires Distinct(Frames(batch))
    ensures Distinct(DocIds(batch))
  {
    forall a, b | 0 <= a < b < |batch| ensures DocIds(batch)[a] != DocIds(batch)[b] {
      FrameIdsAt(DocIds(batch), a);
      FrameIdsAt(DocIds(batch), b);
    }
  }

  predicate Distinct(s: seq<string>) {
    forall i, j :: 0 <= i < j < |s| ==> s[i] != s[j]
  }

  /** True when `m2` keeps every entry of `m1`. */
  predicate Extends<V(==)>(m1: map<string, V>, m2: map<string, V>) {
    forall k :: k in m1 ==> k in m2 && m2[k] == m1[k]
  }

  /** With distinct frames and only earlier frames cached, the next frame is not cached. */
  lemma FreshFrame<V>(cache: map<string, V>, frames: seq<string>, done: nat)
    requires done < |frames| && Distinct(frames) && KeysAmong(cache, frames, done)
    ensures frames[done] !in cache
  {
    assert frames[done] !in frames[..done];
  }

  /** Caching the next frame keeps the keys among the frames read. */
  lemma KeysAmongPush<V>(cache: map<string, V>, frames: seq<string>, done: nat, v: V)
    requires done < |frames| && KeysAmong(cache, frames, done)
    ensures KeysAmong(cache[frames[done] := v], frames, done + 1)
  {
    assert frames[..done + 1] == frames[..done] + [frames[done]];
  }

  /** Appending the cached block of the next frame keeps the progress. */
  lemma ProgressPush(before: map<string, seq<Feature>>, after: map<string, seq<Feature>>,
                     frames: seq<string>, blocks: seq<seq<Feature>>, geo: seq<Feature>, block: seq<Feature>)
    requires Progress(before, frames, blocks, geo) && Extends(before, after)
    requires |blocks| < |frames| && frames[|blocks|] in after && after[frames[|blocks|]] == block
    ensures Progress(after, frames, blocks + [block], geo + block)
  {
    FlattenAppend(blocks, block);
    var blocks' := blocks + [block];
    forall j | 0 <= j < |blocks'|
      ensures frames[j] in after && blocks'[j] == after[frames[j]]
    {
      if j < |blocks| {
        assert frames[j] in before && blocks[j] == before[frames[j]];
      }
    }
  }

  /** Appending the freshly assembled block of the next frame keeps a cold prefix. */
  lemma ColdPrefixPush(p: Pipeline, frames: seq<string>, grids: seq<Grid>, blocks: seq<seq<Feature>>, block: seq<Feature>)
    requires |blocks| < |frames| == |grids| && ColdPrefix(p, frames, grids, blocks)
    requires block == p.Assembled(frames[|blocks|], grids[|blocks|])
    ensures ColdPrefix(p, frames, grids, blocks + [block])
  {
    var blocks' := blocks + [block];
    forall j | 0 <= j < |blocks'|
      ensures blocks'[j] == p.Assembled(frames[j], grids[j])
    {
      if j < |blocks| {
        assert blocks'[j] == blocks[j];
      }
    }
  }

  // ---------------------------------------------------------------------------
  // The screen state
  // ---------------------------------------------------------------------------

  class App {
    /** The memoised App.js pipeline. */
    const pipeline: Pipeline
    /** The collection last handed to the rain radar source. */
    var shape: FeatureCollection
    /** The snapshots passed to the player. */
    var snapshots: seq<RainArea>
    var loading: bool

    constructor (isoband: Isoband, smooth: seq<Position> -> seq<Position>)
      ensures fresh(pipeline)
      ensures pipeline.config == AppConfig && pipeline.thresholds == AppThresholds
      ensures pipeline.isoband == isoband
      ensures forall ring :: pipeline.ring(ring) == AppRing(AppConfig, smooth, ring)
      ensures pipeline.values == map[] && pipeline.features == map[] && pipeline.mids == map[]
      ensures pipeline.Valid()
      ensures shape == FeatureCollection([]) && snapshots == [] && !loading
    {
      pipeline := new Pipeline(AppConfig, AppThresholds, isoband, ring => AppRing(AppConfig, smooth, ring));
      shape := FeatureCollection([]);
      snapshots := [];
      loading := false;
    }

    /** `processSnapshots(s)` for the batch `s.docs`, newest first as the
        query returns it. The batch is reversed in place; then each document
        contributes its own frame and, when it has a successor, the mid frame
        between the two. Every frame's features are read through the memo
        caches; when the caches start empty and the frame ids are distinct,
        every frame is computed afresh from the documents. */
    method ProcessSnapshots(docs: array<Doc>)
      requires pipeline.Valid()
      requires forall k :: 0 <= k < docs.Length ==>
        FitsGrid(Rows(docs[k].data.radar), pipeline.config.width, Size(pipeline.config))
      modifies this, pipeline, docs
      ensures docs[..] == Reversed(old(docs[..]))
      ensures snapshots == DataOf(Reversed(old(docs[..])))
      ensures !loading
      ensures pipeline.Valid()
      ensures Extends(old(pipeline.values), pipeline.values)
      ensures Extends(old(pipeline.features), pipeline.features)
      ensures Extends(old(pipeline.mids), pipeline.mids)
      ensures var frames := Frames(docs[..]);
        && (forall j :: 0 <= j < |frames| ==> frames[j] in pipeline.features)
        && shape.features == Flatten(Blocks(pipeline.features, frames))
      ensures (&& old(pipeline.values) == map[] && old(pipeline.features) == map[] && old(pipeline.mids) == map[]
               && Distinct(Frames(docs[..]))) ==>
        shape.features == Flatten(ColdBlocks(pipeline, docs[..]))
    {
      ReverseInPlace(docs);
      var geo, shots := ReadFrames(docs[..]);
      shape := FeatureCollection(geo);
      snapshots := shots;
      loading := false;
    }

    /** The state of `processSnapshots`' loop before document `i` of `batch`,
        relative to the caches `values0`, `features0` and `mids0` it started
        from; `cold` says that those were empty and the frame ids distinct. */
    ghost predicate Reading(values0: map<string, Grid>, features0: map<string, seq<Feature>>, mids0: map<string, Grid>,
                            batch: seq<Doc>, frames: seq<string>, grids: seq<Grid>, cold: bool,
                            i: nat, blocks: seq<seq<Feature>>, decoded: nat, geo: seq<Feature>, shots: seq<RainArea>)
      reads pipeline
    {
      && Counted(batch, frames, grids, i, blocks, decoded, shots)
      && Cached(values0, features0, mids0, frames, blocks, geo)
      && (cold ==> ColdReading(batch, frames, grids, blocks, decoded))
    }

    /** How far the loop has come: `i` documents' data read, their frames
        (and the mid frame after each but the last) pushed, and the documents
        up to the next one decoded. */
    ghost predicate Counted(batch: seq<Doc>, frames: seq<string>, grids: seq<Grid>,
                            i: nat, blocks: seq<seq<Feature>>, decoded: nat, shots: seq<RainArea>)
    {
      && i <= |batch| && |frames| == |grids| == (if |batch| == 0 then 0 else 2 * |batch| - 1)
      && shots == DataOf(batch[..i])
      && |blocks| == (if i == |batch| && |batch| > 0 then 2 * |batch| - 1 else 2 * i)
      && decoded == (if i == 0 then 0 else if i < |batch| then i + 1 else |batch|)
    }

    /** The pushed blocks are the cached features of their frames, and the
        caches only grew. */
    ghost predicate Cached(values0: map<string, Grid>, features0: map<string, seq<Feature>>, mids0: map<string, Grid>,
                           frames: seq<string>, blocks: seq<seq<Feature>>, geo: seq<Feature>)
      reads pipeline
    {
      && Progress(pipeline.features, frames, blocks, geo)
      && pipeline.Valid()
      && Extends(values0, pipeline.values) && Extends(features0, pipeline.features) && Extends(mids0, pipeline.mids)
    }

    /** Starting from empty caches with distinct frame ids, every cache entry
        was computed in this loop from this batch. */
    ghost predicate ColdReading(batch: seq<Doc>, frames: seq<string>, grids: seq<Grid>,
                                blocks: seq<seq<Feature>>, decoded: nat)
      reads pipeline
    {
      && |blocks| <= |frames| == |grids| && decoded <= |batch|
      && Distinct(frames) && Distinct(DocIds(batch))
      && ColdValues(pipeline.values, pipeline.config, batch, decoded)
      && KeysAmong(pipeline.features, frames, |blocks|) && KeysAmong(pipeline.mids, frames, |blocks|)
      && ColdPrefix(pipeline, frames, grids, blocks)
    }

    /** The loop of `processSnapshots` over the reversed batch: the features of
        every frame, concatenated in frame order, and the data of every
        document. */
    method ReadFrames(batch: seq<Doc>) returns (geo: seq<Feature>, shots: seq<RainArea>)
      requires pipeline.Valid()
      requires forall k :: 0 <= k < |batch| ==>
        FitsGrid(Rows(batch[k].data.radar), pipeline.config.width, Size(pipeline.config))
      modifies pipeline
      ensures shots == DataOf(batch)
      ensures pipeline.Valid()
      ensures Extends(old(pipeline.values), pipeline.values)
      ensures Extends(old(pipeline.features), pipeline.features)
      ensures Extends(old(pipeline.mids), pipeline.mids)
      ensures var frames := Frames(batch);
        && (forall j :: 0 <= j < |frames| ==> frames[j] in pipeline.features)
        && geo == Flatten(Blocks(pipeline.features, frames))
      ensures (&& old(pipeline.values) == map[] && old(pipeline.features) == map[] && old(pipeline.mids) == map[]
               && Distinct(Frames(batch))) ==>
        geo == Flatten(ColdBlocks(pipeline, batch))
    {
      ghost var frames := Frames(batch);
      ghost var grids := FrameGrids(batch, pipeline.config);
      ghost var values0, features0, mids0 := pipeline.values, pipeline.features, pipeline.mids;
      ghost var cold := values0 == map[] && features0 == map[] && mids0 == map[] && Distinct(frames);
      ReadingStarts(batch, frames, grids, cold);
      ghost var blocks, decoded;
      geo, shots, blocks, decoded := ReadDocs(batch, values0, features0, mids0, frames, grids, cold);
      ReadingEnds(values0, features0, mids0, batch, frames, grids, cold, blocks, decoded, geo, shots);
    }

    /** `processSnapshots`' loop over the documents of a batch, oldest first. */
    method ReadDocs(batch: seq<Doc>,
                    ghost values0: map<string, Grid>, ghost features0: map<string, seq<Feature>>, ghost mids0: map<string, Grid>,
                    ghost frames: seq<string>, ghost grids: seq<Grid>, ghost cold: bool)
      returns (geo: seq<Feature>, shots: seq<RainArea>, ghost blocks: seq<seq<Feature>>, ghost decoded: nat)
      requires frames == Frames(batch) && grids == FrameGrids(batch, pipeline.config)
      requires Reading(values0, features0, mids0, batch, frames, grids, cold, 0, [], 0, [], [])
      requires forall k :: 0 <= k < |batch| ==>
        FitsGrid(Rows(batch[k].data.radar), pipeline.config.width, Size(pipeline.config))
      modifies pipeline
      ensures Reading(values0, features0, mids0, batch, frames, grids, cold, |batch|, blocks, decoded, geo, shots)
    {
      shots := [];
      geo := [];
      blocks := [];
      decoded := 0;
      var i := 0;
      while i < |batch|
        invariant i <= |batch|
        invariant Reading(values0, features0, mids0, batch, frames, grids, cold, i, blocks, decoded, geo, shots)
      {
        geo, shots, blocks, decoded :=
          ReadDoc(batch, i, values0, features0, mids0, frames, grids, cold, blocks, decoded, geo, shots);
        i := i + 1;
      }
    }

    /** The loop's state holds before the first document. */
    lemma ReadingStarts(batch: seq<Doc>, frames: seq<string>, grids: seq<Grid>, cold: bool)
      requires pipeline.Valid()
      requires frames == Frames(batch) && grids == FrameGrids(batch, pipeline.config)
      requires cold == (&& pipeline.values == map[] && pipeline.features == map[] && pipeline.mids == map[]
                        && Distinct(frames))
      ensures Reading(pipeline.values, pipeline.features, pipeline.mids, batch, frames, grids, cold, 0, [], 0, [], [])
    {
      assert batch[..0] == [];
      if cold {
        DistinctDocIds(batch);
      }
    }

    /** After the last document every frame's features are cached, and the
        features read are those of the frames in order. */
    lemma ReadingEnds(values0: map<string, Grid>, features0: map<string, seq<Feature>>, mids0: map<string, Grid>,
                      batch: seq<Doc>, frames: seq<string>, grids: seq<Grid>, cold: bool,
                      blocks: seq<seq<Feature>>, decoded: nat, geo: seq<Feature>, shots: seq<RainArea>)
      requires frames == Frames(batch) && grids == FrameGrids(batch, pipeline.config)
      requires cold == (&& values0 == map[] && features0 == map[] && mids0 == map[] && Distinct(frames))
      requires Reading(values0, features0, mids0, batch, frames, grids, cold, |batch|, blocks, decoded, geo, shots)
      ensures shots == DataOf(batch)
      ensures forall j :: 0 <= j < |frames| ==> frames[j] in pipeline.features
      ensures geo == Flatten(Blocks(pipeline.features, frames))
      ensures cold ==> geo == Flatten(ColdBlocks(pipeline, batch))
    {
      assert batch[..|batch|] == batch;
      if cold && |batch| > 0 {
        ColdPrefixComplete(pipeline, batch, blocks);
      }
      ProgressComplete(pipeline.features, frames, blocks, geo);
    }

    /** One turn of `processSnapshots`' loop: document `i`'s frame and, when
        document `i + 1` exists, the mid frame after it; then document `i`'s
        data joins the snapshots. */
    method ReadDoc(batch: seq<Doc>, i: nat,
                   ghost values0: map<string, Grid>, ghost features0: map<string, seq<Feature>>, ghost mids0: map<string, Grid>,
                   ghost frames: seq<string>, ghost grids: seq<Grid>, ghost cold: bool,
                   ghost blocks: seq<seq<Feature>>, ghost decoded: nat, geo: seq<Feature>, shots: seq<RainArea>)
      returns (geo': seq<Feature>, shots': seq<RainArea>, ghost blocks': seq<seq<Feature>>, ghost decoded': nat)
      requires i < |batch|
      requires Reading(values0, features0, mids0, batch, frames, grids, cold, i, blocks, decoded, geo, shots)
      requires frames == Frames(batch) && grids == FrameGrids(batch, pipeline.config)
      requires forall k :: 0 <= k < |batch| ==>
        FitsGrid(Rows(batch[k].data.radar), pipeline.config.width, Size(pipeline.config))
      modifies pipeline
      ensures Reading(values0, features0, mids0, batch, frames, grids, cold, i + 1, blocks', decoded', geo', shots')
    {
      FramesOfDoc(batch, pipeline.config, i);
      var values;
      values, geo', blocks' := ReadOwnFrame(batch, i, values0, features0, mids0, frames, grids, cold, blocks, decoded, geo, shots);
      shots' := shots + [batch[i].data];
      if i + 1 < |batch| {
        geo', blocks' := ReadMidFrame(batch, i, values, values0, features0, mids0, frames, grids, cold, blocks', geo', shots);
        decoded' := i + 2;
      } else {
        decoded' := i + 1;
        DataOfNext(batch, i);
      }
    }

    /** Halfway through turn `i`: document `i`'s frame is pushed and
        documents up to `i` are decoded. */
    ghost predicate Halfway(values0: map<string, Grid>, features0: map<string, seq<Feature>>, mids0: map<string, Grid>,
                            batch: seq<Doc>, frames: seq<string>, grids: seq<Grid>, cold: bool,
                            i: nat, blocks: seq<seq<Feature>>, geo: seq<Feature>, shots: seq<RainArea>)
      reads pipeline
    {
      && i < |batch| && |frames| == |grids| == 2 * |batch| - 1
      && shots == DataOf(batch[..i]) && |blocks| == 2 * i + 1
      && Cached(values0, features0, mids0, frames, blocks, geo)
      && (cold ==> ColdReading(batch, frames, grids, blocks, i + 1))
    }

    /** Document `i`'s own frame: decoded through the cache, its features
        pushed. */
    method ReadOwnFrame(batch: seq<Doc>, i: nat,
                        ghost values0: map<string, Grid>, ghost features0: map<string, seq<Feature>>, ghost mids0: map<string, Grid>,
                        ghost frames: seq<string>, ghost grids: seq<Grid>, ghost cold: bool,
                        ghost blocks: seq<seq<Feature>>, ghost decoded: nat, geo: seq<Feature>, ghost shots: seq<RainArea>)
      returns (values: Grid, geo': seq<Feature>, ghost blocks': seq<seq<Feature>>)
      requires i < |batch|
      requires Reading(values0, features0, mids0, batch, frames, grids, cold, i, blocks, decoded, geo, shots)
      requires frames[2 * i] == batch[i].id && grids[2 * i] == Decoded(batch[i].data.radar, pipeline.config)
      requires FitsGrid(Rows(batch[i].data.radar), pipeline.config.width, Size(pipeline.config))
      modifies pipeline
      ensures Halfway(values0, features0, mids0, batch, frames, grids, cold, i, blocks', geo', shots)
      ensures |values| == Size(pipeline.config)
      ensures cold ==> values == Decoded(batch[i].data.radar, pipeline.config)
    {
      var doc := batch[i];
      ghost var decoded';
      values, decoded' := DecodeDoc(doc, batch, i, decoded, cold);
      geo', blocks' := PushFrame(doc.id, values, geo, frames, grids, blocks, cold);
      if cold {
        KeysAmongMore(pipeline.mids, frames, 2 * i, 2 * i + 1);
      }
    }

    /** The mid frame between documents `i` and `i + 1`: document `i + 1`
        decoded through the cache, the mean grid made through the cache, its
        features pushed. */
    method ReadMidFrame(batch: seq<Doc>, i: nat, values: Grid,
                        ghost values0: map<string, Grid>, ghost features0: map<string, seq<Feature>>, ghost mids0: map<string, Grid>,
                        ghost frames: seq<string>, ghost grids: seq<Grid>, ghost cold: bool,
                        ghost blocks: seq<seq<Feature>>, geo: seq<Feature>, ghost shots: seq<RainArea>)
      returns (geo': seq<Feature>, ghost blocks': seq<seq<Feature>>)
      requires i + 1 < |batch|
      requires Halfway(values0, features0, mids0, batch, frames, grids, cold, i, blocks, geo, shots)
      requires |values| == Size(pipeline.config)
      requires cold ==> values == Decoded(batch[i].data.radar, pipeline.config)
      requires frames[2 * i + 1] == MidId(batch[i].id, batch[i + 1].id)
      requires grids[2 * i + 1] == Mid(Decoded(batch[i].data.radar, pipeline.config), Decoded(batch[i + 1].data.radar, pipeline.config))
      requires FitsGrid(Rows(batch[i + 1].data.radar), pipeline.config.width, Size(pipeline.config))
      modifies pipeline
      ensures Reading(values0, features0, mids0, batch, frames, grids, cold, i + 1, blocks', i + 2, geo', shots + [batch[i].data])
    {
      var nextDoc := batch[i + 1];
      var nextValues;
      ghost var decoded';
      nextValues, decoded' := DecodeDoc(nextDoc, batch, i + 1, i + 1, cold);
      var midId := MidId(batch[i].id, nextDoc.id);
      var midValues := MidFrame(midId, values, nextValues, frames, |blocks|, cold);
      geo', blocks' := PushFrame(midId, midValues, geo, frames, grids, blocks, cold);
      DataOfNext(batch, i);
    }

    /** Decodes document `k` of the batch through the cache. */
    method DecodeDoc(doc: Doc, ghost batch: seq<Doc>, ghost k: nat, ghost decoded: nat, ghost cold: bool)
      returns (grid: Grid, ghost decoded': nat)
      requires k < |batch| && doc == batch[k] && decoded <= |batch| && k <= decoded
      requires pipeline.Valid()
      requires FitsGrid(Rows(doc.data.radar), pipeline.config.width, Size(pipeline.config))
      requires cold ==> Distinct(DocIds(batch)) && ColdValues(pipeline.values, pipeline.config, batch, decoded)
      modifies pipeline
      ensures pipeline.Valid()
      ensures Extends(old(pipeline.values), pipeline.values)
      ensures pipeline.features == old(pipeline.features) && pipeline.mids == old(pipeline.mids)
      ensures |grid| == Size(pipeline.config)
      ensures decoded' == if k < decoded then decoded else k + 1
      ensures cold ==> ColdValues(pipeline.values, pipeline.config, batch, decoded') && grid == Decoded(doc.data.radar, pipeline.config)
    {
      ghost var before := pipeline.values;
      grid := pipeline.ConvertRadar2Values(doc.id, doc.data.radar);
      decoded' := if k < decoded then decoded else k + 1;
      if cold {
        var ids := DocIds(batch);
        var c := pipeline.config;
        if k < decoded {
          assert doc.id in before && before[doc.id] == Decoded(doc.data.radar, c);
        } else {
          assert doc.id !in ids[..decoded] by {
            forall m | 0 <= m < decoded ensures ids[m] != doc.id {
              assert ids[k] == doc.id;
            }
          }
          assert pipeline.values == before[doc.id := grid];
          assert ids[..decoded'] == ids[..decoded] + [doc.id];
          forall m | 0 <= m < decoded'
            ensures batch[m].id in pipeline.values && pipeline.values[batch[m].id] == Decoded(batch[m].data.radar, c)
          {
            if m < decoded {
              assert batch[m].id != doc.id by { assert ids[m] == batch[m].id; }
            }
          }
        }
      }
    }

    /** The mid frame's grid, through the cache. */
    method MidFrame(midId: string, values1: Grid, values2: Grid, ghost frames: seq<string>, ghost done: nat, ghost cold: bool)
      returns (grid: Grid)
      requires done < |frames| && frames[done] == midId
      requires pipeline.Valid()
      requires |values1| == |values2| == Size(pipeline.config)
      requires cold ==> Distinct(frames) && KeysAmong(pipeline.mids, frames, done)
      modifies pipeline
      ensures pipeline.Valid()
      ensures Extends(old(pipeline.mids), pipeline.mids)
      ensures pipeline.features == old(pipeline.features) && pipeline.values == old(pipeline.values)
      ensures cold ==> KeysAmong(pipeline.mids, frames, done + 1)
      ensures cold ==> grid == Mid(values1, values2)
    {
      grid := pipeline.GenMidValues(midId, values1, values2);
      if cold {
        assert midId !in frames[..done] by {
          forall m | 0 <= m < done ensures frames[m] != midId {
          }
        }
        assert frames[..done + 1] == frames[..done] + [midId];
      }
    }

    /** Reads frame `|blocks|`'s features through the cache and appends them. */
    method PushFrame(id: string, grid: Grid, geo: seq<Feature>, ghost frames: seq<string>, ghost grids: seq<Grid>,
                     ghost blocks: seq<seq<Feature>>, ghost cold: bool)
      returns (geo': seq<Feature>, ghost blocks': seq<seq<Feature>>)
      requires |frames| == |grids| && |blocks| < |frames| && frames[|blocks|] == id
      requires pipeline.Valid()
      requires Progress(pipeline.features, frames, blocks, geo)
      requires cold ==> Distinct(frames) && KeysAmong(pipeline.features, frames, |blocks|)
      requires cold ==> ColdPrefix(pipeline, frames, grids, blocks) && grid == grids[|blocks|]
      modifies pipeline
      ensures pipeline.Valid()
      ensures Extends(old(pipeline.features), pipeline.features)
      ensures pipeline.values == old(pipeline.values) && pipeline.mids == old(pipeline.mids)
      ensures |blocks'| == |blocks| + 1 && blocks'[..|blocks|] == blocks
      ensures Progress(pipeline.features, frames, blocks', geo')
      ensures cold ==> KeysAmong(pipeline.features, frames, |blocks'|)
      ensures cold ==> ColdPrefix(pipeline, frames, grids, blocks')
    {
      ghost var before := pipeline.features;
      if cold {
        FreshFrame(before, frames, |blocks|);
      }
      var fs := pipeline.ConvertValues2GeoJSON(id, grid);
      geo' := geo + fs;
      blocks' := blocks + [fs];
      ProgressPush(before, pipeline.features, frames, blocks, geo, fs);
      if cold {
        KeysAmongPush(before, frames, |blocks|, fs);
        ColdPrefixPush(pipeline, frames, grids, blocks, fs);
      }
    }
  }
}
