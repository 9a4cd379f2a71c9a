/** The playback control of components/Player.js: a slider over the
    snapshots, oldest first, stepped in half-steps so that every second
    position is the mid frame between two snapshots. `index` 1 is the oldest
    snapshot and `index == count` the newest. */
module Player {
  import opened Ids
  import App
  import TestRadar

  type RainArea = App.RainArea

  /** `Math.round`. */
  function Round(v: real): int {
    TestRadar.RoundHalfUp(v)
  }

  /** `Math.ceil`. */
  function Ceil(v: real): int {
    -((-v).Floor)
  }

  /** The three pieces of component state the handlers update. */
  datatype Playback = Playback(index: real, playing: bool, fwd: bool)

  /** The slider position keeps the displayed snapshot `snapshots[round(index) - 1]`
      inside the batch. */
  predicate InRange(s: Playback, count: nat) {
    1.0 <= s.index < count as real + 0.5
  }

  /** `Math.max(...coverages)` over a non-empty batch. */
  function MaxCoverage(snapshots: seq<RainArea>): (m: real)
    requires |snapshots| > 0
    ensures exists k :: 0 <= k < |snapshots| && m == snapshots[k].sgCoverage
    ensures forall k :: 0 <= k < |snapshots| ==> snapshots[k].sgCoverage <= m
  {
    if |snapshots| == 1 then snapshots[0].sgCoverage
    else
      var rest := MaxCoverage(snapshots[1..]);
      assert forall k :: 1 <= k < |snapshots| ==> snapshots[k] == snapshots[1..][k - 1];
      if snapshots[0].sgCoverage >= rest then snapshots[0].sgCoverage else rest
  }

  /** The interval callback: at or past the end it stops when no snapshot
      covers 5% of Singapore and otherwise wraps to the oldest snapshot;
      before the end it moves half a step. */
  function TickNext(s: Playback, count: nat, maxCoverage: real): (t: Playback)
    ensures t.fwd == s.fwd
    ensures t.playing ==> s.playing
    ensures InRange(s, count) ==> InRange(t, count)
    ensures t.index == s.index || t.index == 1.0 || t.index == s.index + 0.5
  {
    var endOfSnapshots := s.index >= count as real;
    if endOfSnapshots && maxCoverage < 5.0 then s.(playing := false)
    else s.(index := if endOfSnapshots then 1.0 else s.index + 0.5)
  }

  /** The interval's delay in milliseconds, none while paused: the newest
      snapshot is held for 2 seconds, every other step for 100 ms. */
  function TickDelay(s: Playback, count: nat): (d: Option<nat>)
    ensures d.None? <==> !s.playing
    ensures d.Some? ==> d.value == 100 || d.value == 2000
    ensures d.Some? ==> (d.value == 2000 <==> s.index == count as real)
  {
    if !s.playing then None else if s.index == count as real then Some(2000) else Some(100)
  }

  /** The play button: with the forward arrow shown it jumps to the newest
      snapshot; otherwise it toggles playback, restarting from the oldest
      snapshot when paused at the newest. */
  function PressNext(s: Playback, count: nat): (t: Playback)
    requires count > 0
    ensures s.fwd ==> t == Playback(count as real, s.playing, false)
    ensures !s.fwd ==> t.playing == !s.playing && !t.fwd
    ensures !s.fwd ==> t.index == (if s.index == count as real && !s.playing then 1.0 else s.index)
    ensures InRange(s, count) ==> InRange(t, count)
  {
    if s.fwd then s.(index := count as real, fwd := false)
    else
      var index := if s.index == count as real && !s.playing then 1.0 else s.index;
      s.(index := index, playing := !s.playing)
  }

  /** Starting to drag the slider pauses and hides the forward arrow. */
  function SlideStartNext(s: Playback): (t: Playback)
    ensures t.index == s.index && !t.playing && !t.fwd
  {
    s.(playing := false, fwd := false)
  }

  /** Releasing the slider at `v` snaps the index to the nearest snapshot. */
  function SlideCompleteNext(s: Playback, v: real, count: nat): (t: Playback)
    requires 1.0 <= v <= count as real
    ensures t.playing == s.playing && t.fwd == s.fwd
    ensures t.index.Floor as real == t.index && t.index - 0.5 <= v < t.index + 0.5
    ensures InRange(t, count) && t.index <= count as real
  {
    var r := Round(v);
    assert 1 <= r <= count;
    s.(index := r as real)
  }

  /** Dragging the slider (between 1 and `count`) moves the index with it. */
  function ValueChangeNext(s: Playback, v: real, count: nat): (t: Playback)
    requires 1.0 <= v <= count as real
    ensures t.index == v && t.playing == s.playing && t.fwd == s.fwd
    ensures InRange(t, count)
  {
    s.(index := v)
  }

  /** The effect on a new batch of `count` snapshots: when paused before the
      newest snapshot, the forward arrow appears; otherwise nothing changes. */
  function SnapshotsNext(s: Playback, count: nat): (t: Playback)
    ensures t.index == s.index && t.playing == s.playing
    ensures t.fwd <==> s.fwd || (s.index != 0.0 && s.index < count as real && !s.playing)
  {
    if s.index != 0.0 && s.index < count as real && !s.playing then s.(fwd := true) else s
  }

  /** Leaving the foreground pauses playback. */
  function AppStateNext(s: Playback, active: bool): (t: Playback)
    ensures t.index == s.index && t.fwd == s.fwd
    ensures t.playing <==> s.playing && active
  {
    if !active then s.(playing := false) else s
  }

  /** The snapshot `id` shown by the render, `snapshots[Math.round(index) - 1]`;
      None where JavaScript reads `undefined` and the destructuring throws. */
  function DisplayedId(snapshots: seq<RainArea>, index: real): (r: Option<string>)
    ensures r.Some? <==> 1 <= Round(index) <= |snapshots|
    ensures r.Some? ==> r.value == snapshots[Round(index) - 1].id
  {
    var k := Round(index);
    if 1 <= k <= |snapshots| then Some(snapshots[k - 1].id) else None
  }

  /** A slider position in range always shows a snapshot. */
  lemma InRangeDisplays(snapshots: seq<RainArea>, s: Playback)
    requires InRange(s, |snapshots|)
    ensures DisplayedId(snapshots, s.index).Some?
  {
    var k := Round(s.index);
    assert k as real <= s.index + 0.5 < k as real + 1.0;
  }

  /** `Math.round(index / 0.5) * 0.5`: the index snapped to a half-step. */
  function FloatIndex(index: real): (f: real)
    ensures (f * 2.0).Floor as real == f * 2.0
    ensures index - 0.25 < f <= index + 0.25
  {
    var n := Round(index / 0.5);
    assert n as real <= index * 2.0 + 0.5 < n as real + 1.0;
    n as real * 0.5
  }

  /** What the resolution effect does. */
  datatype Resolved =
    | Silent                          // index 0 or no snapshots: returns early
    | Undefined                       // `snapshots[roundIndex - 1]` is undefined and `.id` throws
    | Notify(id: string, at: real)    // calls `onRainIDChange(id, floatIndex)`

  /** The effect that tells the map which frame to show: the snapshot under
      the index, or, at a half-step with snapshots on both sides, the mean of
      their `dt` values as text. */
  function Resolve(snapshots: seq<RainArea>, index: real): (r: Resolved)
    ensures r.Silent? <==> index == 0.0 || |snapshots| == 0
    ensures r.Undefined? <==> index != 0.0 && |snapshots| > 0 && !(1 <= Round(index) <= |snapshots|)
    ensures r.Notify? ==> r.at == FloatIndex(index)
  {
    if index == 0.0 || |snapshots| == 0 then Silent
    else
      var roundIndex := Round(index);
      var floatIndex := FloatIndex(index);
      if !(1 <= roundIndex <= |snapshots|) then Undefined
      else
        var id := snapshots[roundIndex - 1].id;
        if floatIndex != roundIndex as real then
          var lo, hi := floatIndex.Floor, Ceil(floatIndex);
          if 1 <= lo <= |snapshots| && 1 <= hi <= |snapshots| then
            Notify(HalfToString(snapshots[lo - 1].dt + snapshots[hi - 1].dt), floatIndex)
          else Notify(id, floatIndex)
        else Notify(id, floatIndex)
  }

  /** A whole-step position resolves to the snapshot under the index. */
  lemma ResolveWhole(snapshots: seq<RainArea>, index: real, n: int)
    requires FloatIndex(index) == n as real && 1 <= n <= |snapshots|
    ensures Round(index) == n
    ensures Resolve(snapshots, index) == Notify(snapshots[n - 1].id, n as real)
  {
    var k := Round(index);
    assert k as real <= index + 0.5 < k as real + 1.0;
  }

  /** A half-step position between snapshots `n` and `n + 1` resolves to the
      mean of their `dt` values. */
  lemma ResolveHalf(snapshots: seq<RainArea>, index: real, n: int)
    requires FloatIndex(index) == n as real + 0.5 && 1 <= n < |snapshots|
    ensures Resolve(snapshots, index) ==
      Notify(HalfToString(snapshots[n - 1].dt + snapshots[n].dt), n as real + 0.5)
  {
    var k := Round(index);
    assert k as real <= index + 0.5 < k as real + 1.0;
    var f := FloatIndex(index);
    assert f.Floor == n;
    assert Ceil(f) == n + 1 by {
      assert -f == (-n - 1) as real + 0.5;
      assert (-f).Floor == -n - 1;
    }
  }

  /** When snapshot ids are the decimal digits of their `dt`, a half-step
      resolves to exactly the mid-frame id `processSnapshots` computed for the
      pair, so the map finds that frame's features. */
  lemma ResolveMidFrame(snapshots: seq<RainArea>, index: real, n: int)
    requires FloatIndex(index) == n as real + 0.5 && 1 <= n < |snapshots|
    requires forall k :: 0 <= k < |snapshots| ==>
      AllDigits(snapshots[k].id) && DigitsValue(snapshots[k].id) == snapshots[k].dt
    ensures Resolve(snapshots, index) == Notify(MidId(snapshots[n - 1].id, snapshots[n].id), n as real + 0.5)
  {
    ResolveHalf(snapshots, index, n);
    MidIdOfDigits(snapshots[n - 1].id, snapshots[n].id);
  }

  /** When every document's data carries the document's own id, the id a
      half step reports is the id under which `processSnapshots` cached the
      mid frame between the two documents. */
  lemma {:induction false} ResolveCachedMidFrame(docs: seq<App.Doc>, index: real, n: int)
    requires FloatIndex(index) == n as real + 0.5 && 1 <= n < |docs|
    requires forall k :: 0 <= k < |docs| ==> docs[k].data.id == docs[k].id
    requires forall k :: 0 <= k < |docs| ==>
      AllDigits(docs[k].id) && DigitsValue(docs[k].id) == docs[k].data.dt
    ensures Resolve(App.DataOf(docs), index) == Notify(App.Frames(docs)[2 * (n - 1) + 1], n as real + 0.5)
  {
    var snapshots := App.DataOf(docs);
    ResolveMidFrame(snapshots, index, n);
    App.FrameIdsAt(App.DocIds(docs), n - 1);
  }

  /** From any position in range the effect reports a frame. */
  lemma InRangeResolves(snapshots: seq<RainArea>, s: Playback)
    requires InRange(s, |snapshots|)
    ensures Resolve(snapshots, s.index).Notify?
  {
    InRangeDisplays(snapshots, s);
  }

  /** `k` ticks in a row. */
  function Ticks(s: Playback, count: nat, maxCoverage: real, k: nat): Playback {
    if k == 0 then s else TickNext(Ticks(s, count, maxCoverage, k - 1), count, maxCoverage)
  }

  /** Playing from the oldest snapshot moves half a step per tick. */
  lemma {:induction false} TicksAdvance(count: nat, maxCoverage: real, fwd: bool, k: nat)
    requires k <= 2 * (count - 1) && count > 0
    ensures Ticks(Playback(1.0, true, fwd), count, maxCoverage, k) ==
      Playback(1.0 + k as real / 2.0, true, fwd)
  {
    if k > 0 {
      TicksAdvance(count, maxCoverage, fwd, k - 1);
    }
  }

  /** One loop of playback: from the oldest snapshot, `2 * (count - 1)`
      ticks 100 ms apart reach the newest, which is held for 2 seconds; the
      next tick starts over when some snapshot covers 5% of Singapore and
      stops at the newest otherwise. */
  lemma PlaybackLoop(count: nat, maxCoverage: real, fwd: bool)
    requires count > 0
    ensures var start := Playback(1.0, true, fwd);
      && (forall k :: 0 <= k < 2 * (count - 1) ==> TickDelay(Ticks(start, count, maxCoverage, k), count) == Some(100))
      && Ticks(start, count, maxCoverage, 2 * (count - 1)) == Playback(count as real, true, fwd)
      && TickDelay(Ticks(start, count, maxCoverage, 2 * (count - 1)), count) == Some(2000)
      && Ticks(start, count, maxCoverage, 2 * count - 1) ==
         (if maxCoverage < 5.0 then Playback(count as real, false, fwd) else start)
  {
    var start := Playback(1.0, true, fwd);
    forall k | 0 <= k < 2 * (count - 1)
      ensures TickDelay(Ticks(start, count, maxCoverage, k), count) == Some(100)
    {
      TicksAdvance(count, maxCoverage, fwd, k);
    }
    TicksAdvance(count, maxCoverage, fwd, 2 * (count - 1));
  }

  /** Pressing play twice without the forward arrow, away from the newest
      snapshot, leaves the state as it was. */
  lemma PressTwice(s: Playback, count: nat)
    requires count > 0 && !s.fwd && s.index != count as real
    ensures PressNext(PressNext(s, count), count) == s
  {
  }

  /** At the newest snapshot play restarts from the oldest: pausing there
      and pressing again plays from index 1. */
  lemma PressAtNewest(s: Playback, count: nat)
    requires count > 0 && !s.fwd && s.index == count as real && s.playing
    ensures PressNext(s, count) == Playback(count as real, false, false)
    ensures PressNext(PressNext(s, count), count) == Playback(1.0, true, false)
  {
  }

  /** Releasing the slider where it already snapped changes nothing. */
  lemma SlideCompleteIdempotent(s: Playback, v: real, count: nat)
    requires 1.0 <= v <= count as real
    ensures var t := SlideCompleteNext(s, v, count); SlideCompleteNext(t, t.index, count) == t
  {
    var t := SlideCompleteNext(s, v, count);
    assert Round(t.index) == t.index.Floor;
  }

  /** The mounted component. */
  class Player {
    var snapshots: seq<RainArea>
    var index: real
    var playing: bool
    var fwd: bool

    function State(): Playback
      reads this
    {
      Playback(index, playing, fwd)
    }

    /** A mounted player has snapshots and a slider position inside them. */
    ghost predicate Valid()
      reads this
    {
      |snapshots| > 0 && InRange(State(), |snapshots|)
    }

    /** First render and the effects that follow it: nothing at all without
        snapshots; otherwise paused at `initialValue`, with the forward arrow
        shown by the `[snapshots]` effect when `initialValue` lies strictly
        between 0 and the count. */
    static method Mount(snapshots: seq<RainArea>, initialValue: real) returns (p: Player?)
      ensures p == null <==> |snapshots| == 0
      ensures p != null ==> fresh(p) && p.snapshots == snapshots
      ensures p != null ==> p.State() == SnapshotsNext(Playback(initialValue, false, false), |snapshots|)
      ensures p != null && 1.0 <= initialValue <= |snapshots| as real ==> p.Valid()
    {
      if |snapshots| == 0 {
        return null;
      }
      p := new Player;
      p.snapshots, p.index, p.playing, p.fwd := snapshots, initialValue, false, false;
      // the `[snapshots]` effect runs once after the first render
      if p.index != 0.0 && p.index < |p.snapshots| as real && !p.playing {
        p.fwd := true;
      }
    }

    method Tick()
      requires |snapshots| > 0
      modifies this
      ensures snapshots == old(snapshots)
      ensures State() == TickNext(old(State()), |snapshots|, MaxCoverage(snapshots))
      ensures old(Valid()) ==> Valid()
    {
      var endOfSnapshots := index >= |snapshots| as real;
      if endOfSnapshots && MaxCoverage(snapshots) < 5.0 {
        playing := false;
      } else {
        var newIndex := if endOfSnapshots then 1.0 else index + 0.5;
        index := newIndex;
      }
    }

    method PressPlay()
      requires |snapshots| > 0
      modifies this
      ensures snapshots == old(snapshots)
      ensures State() == PressNext(old(State()), |snapshots|)
      ensures old(Valid()) ==> Valid()
    {
      if fwd {
        index := |snapshots| as real;
        fwd := false;
        return;
      }
      if index == |snapshots| as real && !playing {
        index := 1.0;
      }
      playing := !playing;
    }

    method SlidingStart()
      modifies this
      ensures snapshots == old(snapshots)
      ensures State() == SlideStartNext(old(State()))
      ensures old(Valid()) ==> Valid()
    {
      playing := false;
      fwd := false;
    }

    method SlidingComplete(v: real)
      requires 1.0 <= v <= |snapshots| as real
      modifies this
      ensures snapshots == old(snapshots)
      ensures State() == SlideCompleteNext(old(State()), v, |snapshots|)
      ensures Valid()
    {
      var roundIndex := Round(v);
      index := roundIndex as real;
    }

    method ValueChange(v: real)
      requires 1.0 <= v <= |snapshots| as real
      modifies this
      ensures snapshots == old(snapshots)
      ensures State() == ValueChangeNext(old(State()), v, |snapshots|)
      ensures Valid()
    {
      index := v;
    }

    /** A new batch arrives (the app hands over a non-empty one) and the
        snapshots effect runs. */
    method SnapshotsChanged(batch: seq<RainArea>)
      requires |batch| > 0
      modifies this
      ensures snapshots == batch
      ensures State() == SnapshotsNext(old(State()), |batch|)
      ensures old(Valid()) && |batch| >= old(|snapshots|) ==> Valid()
    {
      snapshots := batch;
      if index != 0.0 && index < |snapshots| as real && !playing {
        fwd := true;
      }
    }

    method AppStateChanged(active: bool)
      modifies this
      ensures snapshots == old(snapshots)
      ensures State() == AppStateNext(old(State()), active)
      ensures old(Valid()) ==> Valid()
    {
      if !active {
        playing := false;
      }
    }
  }
}
