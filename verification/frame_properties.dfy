/** What the stimulus period guarantees, read off its description: events are
    counted once per start frame, change times are filled in onset order, only
    the selected image turns, and responses are kept in press order. */
module FrameProperties {
  import opened Values
  import opened Config
  import opened FrameLoop
  import ChangeFrames

  /** The distinct start frames that fall inside a stimulus period of n frames. */
  function StartsWithin(starts: seq<int>, n: nat): set<int>
  {
    set k | 0 <= k < |starts| && 0 <= starts[k] < n :: starts[k]
  }

  /** A loop that runs to the end does what its description says. */
  lemma DoneIsCompleted(t: Trial, frames: seq<FrameInput>)
    requires WellFormed(t) && RunFrames(t, frames).Done?
    ensures RunFrames(t, frames) == Completed(t, frames)
  {
  }

  /** At 60 Hz every event contributes 30 change frames. */
  lemma ChangeFramesPerEvent(t: Trial)
    ensures |ChangeFramesOf(t)| == 30 * |t.starts|
  {
    FrameCounts();
    ChangeFrames.ExpandLength(t.starts, TiltDurationFrames);
  }

  /** Quitting happens exactly when some frame's key poll holds the quit key,
      and on the first such frame. */
  lemma QuitOnFirstQuitKey(t: Trial, frames: seq<FrameInput>)
    requires WellFormed(t)
    ensures RunFrames(t, frames).Quit? <==> exists f :: 0 <= f < |frames| && t.keys.quitKey in frames[f].keys
    ensures RunFrames(t, frames).Quit? ==>
      var q := RunFrames(t, frames).frame;
      q < |frames| && t.keys.quitKey in frames[q].keys
      && forall f :: 0 <= f < q ==> t.keys.quitKey !in frames[f].keys
  {
    var o := RunFrames(t, frames);
    if exists f :: 0 <= f < |frames| && t.keys.quitKey in frames[f].keys {
      assert FirstQuit(t.keys.quitKey, frames, 0).Some?;
    }
  }

  /** The event counter ends at the number of distinct start frames inside the
      trial, so it never exceeds the number of events. */
  lemma EventsCounted(t: Trial, frames: seq<FrameInput>)
    requires WellFormed(t) && RunFrames(t, frames).Done?
    ensures RunFrames(t, frames).eventsSeen == |StartsWithin(t.starts, |frames|)|
    ensures RunFrames(t, frames).eventsSeen <= |t.starts|
  {
    DoneIsCompleted(t, frames);
    var r := Reached(t.starts, |frames|);
    DistinctElements(r);
    assert Elements(r) == StartsWithin(t.starts, |frames|) by {
      forall x | x in Elements(r)
        ensures x in StartsWithin(t.starts, |frames|)
      {
        assert x in t.starts;
        var k :| 0 <= k < |t.starts| && t.starts[k] == x;
      }
    }
    ReachedBound(t.starts, |frames|);
  }

  /** With distinct start frames that all fall inside the trial, every event is counted. */
  lemma AllEventsCounted(t: Trial, frames: seq<FrameInput>)
    requires WellFormed(t) && RunFrames(t, frames).Done?
    requires forall a, b :: 0 <= a < b < |t.starts| ==> t.starts[a] != t.starts[b]
    requires forall k :: 0 <= k < |t.starts| ==> 0 <= t.starts[k] < |frames|
    ensures RunFrames(t, frames).eventsSeen == |t.starts|
  {
    EventsCounted(t, frames);
    DistinctElements(t.starts);
    assert StartsWithin(t.starts, |frames|) == Elements(t.starts);
  }

  /** change_times holds, from index 0, the clock read on each counted start
      frame in increasing frame order, and NaN for events never reached. */
  lemma ChangeTimesInFrameOrder(t: Trial, frames: seq<FrameInput>)
    requires WellFormed(t) && RunFrames(t, frames).Done?
    ensures var o := RunFrames(t, frames);
      var r := Reached(t.starts, |frames|);
      && |o.changeTimes| == |t.starts|
      && o.eventsSeen == |r|
      && (forall a, b :: 0 <= a < b < |r| ==> r[a] < r[b])
      && (forall k :: 0 <= k < |r| ==> r[k] in t.starts && o.changeTimes[k] == Ms(frames[r[k]].changeClockMs))
      && (forall k :: |r| <= k < |t.starts| ==> o.changeTimes[k] == NaN)
  {
    DoneIsCompleted(t, frames);
  }

  /** The frames counted before frame i are the first starts, and every later
      start lies at or after i. */
  predicate CountedInOrder(starts: seq<int>, i: nat)
  {
    var r := Reached(starts, i);
    && |r| <= |starts|
    && r == starts[..|r|]
    && forall k :: |r| <= k < |starts| ==> starts[k] >= i
  }

  /** With start frames in increasing order and none negative, the counted
      frames are the first starts, in their own order. */
  lemma {:induction false} SortedStartsCountedInOrder(starts: seq<int>, i: nat)
    requires forall a, b :: 0 <= a < b < |starts| ==> starts[a] < starts[b]
    requires forall k :: 0 <= k < |starts| ==> 0 <= starts[k]
    ensures var r := Reached(starts, i);
      && |r| <= |starts|
      && r == starts[..|r|]
      && forall k :: |r| <= k < |starts| ==> starts[k] >= i
  {
    if i > 0 {
      SortedStartsCountedInOrder(starts, i - 1);
      CountedStep(starts, i - 1);
    }
  }

  /** One more frame keeps the counted frames the first starts. */
  lemma CountedStep(starts: seq<int>, g: nat)
    requires forall a, b :: 0 <= a < b < |starts| ==> starts[a] < starts[b]
    requires CountedInOrder(starts, g)
    ensures CountedInOrder(starts, g + 1)
  {
    var r := Reached(starts, g);
    if g in starts {
      NextInOrder(starts, r, g);
      assert Reached(starts, g + 1) == r + [g];
    } else {
      assert Reached(starts, g + 1) == r;
      forall k | |r| <= k < |starts|
        ensures starts[k] >= g + 1
      {
        assert starts[k] in starts;
      }
    }
  }

  /** In increasing starts, a value g above the first |r| starts and at most
      every later one is, when it is a start at all, the next one. */
  lemma NextInOrder(starts: seq<int>, r: seq<int>, g: int)
    requires forall a, b :: 0 <= a < b < |starts| ==> starts[a] < starts[b]
    requires |r| <= |starts| && r == starts[..|r|]
    requires forall k :: 0 <= k < |r| ==> r[k] < g
    requires forall k :: |r| <= k < |starts| ==> starts[k] >= g
    requires g in starts
    ensures |r| < |starts| && r + [g] == starts[..|r| + 1]
  {
    var m := |r|;
    var j :| 0 <= j < |starts| && starts[j] == g;
    assert m <= j by {
      assert forall k :: 0 <= k < m ==> starts[k] == r[k];
    }
    assert starts[m] >= g;
  }

  /** With sorted, non-negative start frames inside the trial, change_times[k]
      is the clock read on the k-th start frame. */
  lemma ChangeTimesOfSortedStarts(t: Trial, frames: seq<FrameInput>)
    requires WellFormed(t) && RunFrames(t, frames).Done?
    requires forall a, b :: 0 <= a < b < |t.starts| ==> t.starts[a] < t.starts[b]
    requires forall k :: 0 <= k < |t.starts| ==> 0 <= t.starts[k] < |frames|
    ensures var o := RunFrames(t, frames);
      forall k :: 0 <= k < |t.starts| ==> o.changeTimes[k] == Ms(frames[t.starts[k]].changeClockMs)
  {
    SortedStartsCountedInOrder(t.starts, |frames|);
    AllEventsCounted(t, frames);
  }

  /** Off the change frames neither image turns. On a change frame the event
      chosen is the one whose position is the number of start frames up to
      that frame minus one; when no start frame is negative that count is at
      least one, and the chosen event's image alone turns, by minus the
      magnitude for clockwise and plus the magnitude for counter-clockwise. */
  lemma OrientationRule(t: Trial, frames: seq<FrameInput>, f: nat)
    requires WellFormed(t) && RunFrames(t, frames).Done? && f < |frames|
    requires forall k :: 0 <= k < |t.starts| ==> 0 <= t.starts[k]
    ensures var ori := RunFrames(t, frames).orientations[f];
      && (f !in ChangeFramesOf(t) ==> ori == Orientation(0, 0))
      && (f in ChangeFramesOf(t) ==>
            var e := |Reached(t.starts, f + 1)| - 1;
            && 0 <= e < |t.starts|
            && (t.images[e] == Image1 ==> ori.image2 == 0 && ori.image1 == (if t.dirs[e] == CW then -t.tiltMag else t.tiltMag))
            && (t.images[e] == Image2 ==> ori.image1 == 0 && ori.image2 == (if t.dirs[e] == CW then -t.tiltMag else t.tiltMag)))
  {
    DoneIsCompleted(t, frames);
    assert RunFrames(t, frames).orientations[f] == ExpectedOrientation(t, f);
    ExpectedOrientationRule(t, f);
  }

  lemma ExpectedOrientationRule(t: Trial, f: nat)
    requires WellFormed(t)
    requires forall k :: 0 <= k < |t.starts| ==> 0 <= t.starts[k]
    ensures var ori := ExpectedOrientation(t, f);
      && (f !in ChangeFramesOf(t) ==> ori == Orientation(0, 0))
      && (f in ChangeFramesOf(t) ==>
            var e := |Reached(t.starts, f + 1)| - 1;
            && 0 <= e < |t.starts|
            && (t.images[e] == Image1 ==> ori.image2 == 0 && ori.image1 == (if t.dirs[e] == CW then -t.tiltMag else t.tiltMag))
            && (t.images[e] == Image2 ==> ori.image1 == 0 && ori.image2 == (if t.dirs[e] == CW then -t.tiltMag else t.tiltMag)))
  {
    if f in ChangeFramesOf(t) {
      ChangeFrameOrientation(t, f);
    }
  }

  /** On a change frame the described orientation is the tilt of the latest
      counted event. */
  lemma ChangeFrameOrientation(t: Trial, f: nat)
    requires WellFormed(t)
    requires forall k :: 0 <= k < |t.starts| ==> 0 <= t.starts[k]
    requires f in ChangeFramesOf(t)
    ensures var e := |Reached(t.starts, f + 1)| - 1;
      && 0 <= e < |t.starts|
      && ExpectedOrientation(t, f) == TiltedOrientation(t.dirs[e], t.images[e], t.tiltMag)
  {
    var _ := StartedBeforeChangeFrame(t, f);
    EventInRange(t, |Reached(t.starts, f + 1)| - 1);
  }

  /** An event position inside the lists selects that event's image and direction. */
  lemma EventInRange(t: Trial, e: int)
    requires WellFormed(t) && 0 <= e < |t.starts|
    ensures EventOrientation(t, e) == Some(TiltedOrientation(t.dirs[e], t.images[e], t.tiltMag))
  {
  }

  /** A change frame lies at or after some non-negative start frame, so at
      least one event has been counted by then. */
  lemma StartedBeforeChangeFrame(t: Trial, f: nat) returns (k: nat)
    requires forall k :: 0 <= k < |t.starts| ==> 0 <= t.starts[k]
    requires f in ChangeFramesOf(t)
    ensures 1 <= |Reached(t.starts, f + 1)| <= |t.starts|
    ensures k < |t.starts| && t.starts[k] <= f < t.starts[k] + TiltDurationFrames
  {
    k := EventOfChangeFrame(t, f);
    assert t.starts[k] in Reached(t.starts, f + 1);
    ReachedBound(t.starts, f + 1);
  }

  /** A change frame lies in the tilt window of some event. */
  lemma EventOfChangeFrame(t: Trial, f: int) returns (k: nat)
    requires f in ChangeFramesOf(t)
    ensures k < |t.starts| && t.starts[k] <= f < t.starts[k] + TiltDurationFrames
  {
    FrameCounts();
    ChangeFrames.ExpandMembership(t.starts, TiltDurationFrames, f);
    k :| 0 <= k < |t.starts| && t.starts[k] <= f < t.starts[k] + TiltDurationFrames;
  }

  /** With sorted, non-negative start frames, the event that tilts a change
      frame is the latest one started, and the frame lies in its tilt window. */
  lemma TiltFollowsLatestEvent(t: Trial, f: nat)
    requires forall a, b :: 0 <= a < b < |t.starts| ==> t.starts[a] < t.starts[b]
    requires forall k :: 0 <= k < |t.starts| ==> 0 <= t.starts[k]
    requires f in ChangeFramesOf(t)
    ensures var e := |Reached(t.starts, f + 1)| - 1;
      && 0 <= e < |t.starts|
      && t.starts[e] <= f < t.starts[e] + TiltDurationFrames
      && (e + 1 < |t.starts| ==> t.starts[e + 1] > f)
  {
    var k := EventOfChangeFrame(t, f);
    LatestEventFromStart(t.starts, f, k, TiltDurationFrames);
  }

  /** With sorted, non-negative start frames, a frame inside some event's
      window lies inside the window of the last event started by then. */
  lemma LatestEventFromStart(starts: seq<int>, f: nat, k: nat, d: int)
    requires forall a, b :: 0 <= a < b < |starts| ==> starts[a] < starts[b]
    requires forall k :: 0 <= k < |starts| ==> 0 <= starts[k]
    requires k < |starts| && starts[k] <= f < starts[k] + d
    ensures var e := |Reached(starts, f + 1)| - 1;
      && 0 <= e < |starts|
      && starts[e] <= f < starts[e] + d
      && (e + 1 < |starts| ==> starts[e + 1] > f)
  {
    var r := Reached(starts, f + 1);
    SortedStartsCountedInOrder(starts, f + 1);
    assert starts[k] in r;
    LatestStartCovers(starts, r, f, k, d);
  }

  lemma LatestStartCovers(starts: seq<int>, r: seq<int>, f: int, k: nat, d: int)
    requires forall a, b :: 0 <= a < b < |starts| ==> starts[a] < starts[b]
    requires 1 <= |r| <= |starts| && r == starts[..|r|]
    requires forall x :: x in r ==> x < f + 1
    requires forall j :: |r| <= j < |starts| ==> starts[j] >= f + 1
    requires k < |starts| && starts[k] <= f < starts[k] + d
    ensures var e := |r| - 1;
      && starts[e] <= f < starts[e] + d
      && (e + 1 < |starts| ==> starts[e + 1] > f)
  {
    var e := |r| - 1;
    assert starts[e] == r[e];
    assert r[e] in r;
    assert k <= e;
  }

  /** After the loop, response_times is exactly the clock read after the flip
      on every frame whose key poll held the response key, in frame order; the
      placeholder is gone. */
  lemma ResponsesInPressOrder(t: Trial, frames: seq<FrameInput>)
    requires WellFormed(t) && RunFrames(t, frames).Done?
    ensures RunFrames(t, frames).responseTimes == Presses(t.keys.responseKey, frames)
    ensures forall k :: 0 <= k < |RunFrames(t, frames).responseTimes| ==> RunFrames(t, frames).responseTimes[k].Fin?
    ensures (forall f :: 0 <= f < |frames| ==> t.keys.responseKey !in frames[f].keys)
            ==> RunFrames(t, frames).responseTimes == []
  {
    DoneIsCompleted(t, frames);
    PressesFinite(t.keys.responseKey, frames);
  }

  lemma {:induction false} PressesFinite(key: string, frames: seq<FrameInput>)
    ensures forall k :: 0 <= k < |Presses(key, frames)| ==> Presses(key, frames)[k].Fin?
    ensures (forall f :: 0 <= f < |frames| ==> key !in frames[f].keys) ==> Presses(key, frames) == []
  {
    if frames != [] {
      PressesFinite(key, frames[..|frames| - 1]);
    }
  }
}
