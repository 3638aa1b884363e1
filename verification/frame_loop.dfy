/** The stimulus period of one trial, frame by frame: counting events as their
    start frames pass, stamping their change times, tilting the image each event
    selects, and collecting response-key presses until the quit key or the last
    frame. Timestamps are the clock readings the loop takes, given as inputs. */
module FrameLoop {
  import opened Values
  import opened Config
  import ChangeFrames

  datatype Patch = Image1 | Image2
  datatype Direction = CW | CCW

  /** The orientations of the two images on one frame, in tenths of a degree. */
  datatype Orientation = Orientation(image1: int, image2: int)

  /** What one frame observes: the keys the key poll returned, and the clock
      read before the flip (a change time) and after it (a response time), in ms. */
  datatype FrameInput = FrameInput(keys: seq<string>, changeClockMs: int, responseClockMs: int)

  /** One trial's events: start frames, the image and direction of each event
      (drawn per event by the caller), the tilt magnitude and the command keys. */
  datatype Trial = Trial(starts: seq<int>, images: seq<Patch>, dirs: seq<Direction>, tiltMag: int, keys: CommandKeys)

  /** The image and direction lists hold one entry per event, as their generator draws them. */
  predicate WellFormed(t: Trial)
  {
    |t.images| == |t.starts| && |t.dirs| == |t.starts|
  }

  /** The loop's variables: cur_evnt_n, change_times, response_times and the
      orientations set on every frame so far. */
  datatype LoopState = LoopState(events: int, changeTimes: seq<Num>, responseTimes: seq<Num>, orientations: seq<Orientation>)

  datatype Outcome =
    | Quit(frame: nat)                                  // the quit key ended the session on this frame
    | Crash(frame: nat)                                 // an IndexError on this frame
    | Done(eventsSeen: int, changeTimes: seq<Num>, responseTimes: seq<Num>, orientations: seq<Orientation>)

  datatype Step = Next(state: LoopState) | Stop(outcome: Outcome)

  function Ms(t: int): Num
  {
    Fin(t as real)
  }

  /** Clockwise is a negative angle, counter-clockwise a positive one; only the
      selected image turns. */
  function TiltedOrientation(d: Direction, p: Patch, mag: int): (o: Orientation)
    ensures p == Image1 ==> o.image2 == 0
    ensures p == Image2 ==> o.image1 == 0
    ensures o.image1 + o.image2 == (if d == CW then -mag else mag)
  {
    var angle := if d == CW then -mag else mag;
    if p == Image1 then Orientation(angle, 0) else Orientation(0, angle)
  }

  /** The orientation event e (a Python index, so -1 is the last event) asks for. */
  function EventOrientation(t: Trial, e: int): Option<Orientation>
  {
    match PyIndex(|t.dirs|, e)
    case None => None
    case Some(a) =>
      match PyIndex(|t.images|, e)
      case None => None
      case Some(b) => Some(TiltedOrientation(t.dirs[a], t.images[b], t.tiltMag))
  }

  /** Lines 350-354: on a start frame the clock is stamped into the next free
      change-time slot and the event counter advances. */
  function Stamp(t: Trial, i: int, x: FrameInput, st: LoopState): Option<LoopState>
  {
    if i !in t.starts then Some(st)
    else
      match PyIndex(|st.changeTimes|, st.events)
      case None => None
      case Some(k) => Some(st.(events := st.events + 1, changeTimes := st.changeTimes[k := Ms(x.changeClockMs)]))
  }

  /** Lines 343-344 and 357-395: on a change frame the latest counted event
      decides which image turns and which way; otherwise neither turns. */
  function Orient(t: Trial, changeFrames: seq<int>, i: int, events: int): Option<Orientation>
  {
    if i in changeFrames then EventOrientation(t, events - 1) else Some(Orientation(0, 0))
  }

  /** One pass of the frame loop's body; lines 407-412 handle the keys after the flip. */
  function FrameStep(t: Trial, changeFrames: seq<int>, i: nat, x: FrameInput, st: LoopState): Step
  {
    match Stamp(t, i, x, st)
    case None => Stop(Crash(i))
    case Some(s) =>
      match Orient(t, changeFrames, i, s.events)
      case None => Stop(Crash(i))
      case Some(ori) =>
        if t.keys.quitKey in x.keys then Stop(Quit(i))
        else
          var s' := s.(orientations := s.orientations + [ori]);
          if t.keys.responseKey in x.keys then Next(s'.(responseTimes := s'.responseTimes + [Ms(x.responseClockMs)]))
          else Next(s')
  }

  /** The frame loop from frame i on; at the end the NaN placeholder is popped
      from the response list. */
  function Loop(t: Trial, changeFrames: seq<int>, frames: seq<FrameInput>, i: nat, st: LoopState): Outcome
    requires i <= |frames|
    decreases |frames| - i
  {
    if i == |frames| then
      if st.responseTimes == [] then Crash(i)
      else Done(st.events, st.changeTimes, st.responseTimes[1..], st.orientations)
    else
      match FrameStep(t, changeFrames, i, frames[i], st)
      case Stop(o) => o
      case Next(s) => Loop(t, changeFrames, frames, i + 1, s)
  }

  function Initial(t: Trial): LoopState
  {
    LoopState(0, seq(|t.starts|, _ => NaN), [NaN], [])
  }

  function ChangeFramesOf(t: Trial): seq<int>
  {
    ChangeFrames.Expand(t.starts, TiltDurationFrames)
  }

  /** The whole stimulus period over the given frames: on a well-formed trial it
      never raises an IndexError and does exactly what Expected describes. */
  function RunFrames(t: Trial, frames: seq<FrameInput>): (o: Outcome)
    ensures WellFormed(t) ==> o == Expected(t, frames)
    ensures WellFormed(t) ==> !o.Crash?
    ensures o.Done? && WellFormed(t) ==> 0 <= o.eventsSeen <= |t.starts| && |o.changeTimes| == |t.starts|
    ensures o.Done? ==> |o.orientations| == |frames|
  {
    var o := Loop(t, ChangeFramesOf(t), frames, 0, Initial(t));
    if WellFormed(t) then
      assert Initial(t) == SpecState(t, frames, 0) by {
        assert frames[..0] == [];
      }
      LoopMatchesSpec(t, frames, 0);
      ReachedBound(t.starts, |frames|);
      o
    else
      LoopLength(t, ChangeFramesOf(t), frames, 0, Initial(t));
      o
  }

  // ----- The reference description of the loop -----

  /** The start frames among 0 .. i-1 in increasing order: the frames on which
      the loop has counted an event before frame i. */
  function Reached(starts: seq<int>, i: nat): (r: seq<int>)
    ensures forall f :: f in r <==> f in starts && 0 <= f < i
    ensures forall k :: 0 <= k < |r| ==> 0 <= r[k] < i
    ensures forall a, b :: 0 <= a < b < |r| ==> r[a] < r[b]
  {
    if i == 0 then [] else Reached(starts, i - 1) + (if i - 1 in starts then [i - 1] else [])
  }

  /** change_times after frame i-1: the clock read on each counted start frame,
      in the order counted, then NaN. */
  function ChangeTimesAfter(t: Trial, frames: seq<FrameInput>, i: nat): seq<Num>
    requires i <= |frames|
  {
    var reached := Reached(t.starts, i);
    seq(|t.starts|, k requires 0 <= k < |t.starts| =>
      if k < |reached| then Ms(frames[reached[k]].changeClockMs) else NaN)
  }

  /** The clock read after the flip on every frame where key was pressed, in frame order. */
  function Presses(key: string, frames: seq<FrameInput>): (r: seq<Num>)
    ensures |r| <= |frames|
  {
    if frames == [] then []
    else
      var last := frames[|frames| - 1];
      Presses(key, frames[..|frames| - 1]) + (if key in last.keys then [Ms(last.responseClockMs)] else [])
  }

  /** The orientation on frame f: untilted off the change frames, otherwise the
      tilt of the event whose position is the number of start frames up to f, minus one. */
  function ExpectedOrientation(t: Trial, f: int): Orientation
    requires f >= 0
  {
    if f !in ChangeFramesOf(t) then Orientation(0, 0)
    else
      match EventOrientation(t, |Reached(t.starts, f + 1)| - 1)
      case Some(o) => o
      case None => Orientation(0, 0)
  }

  /** The first frame from i on that holds the quit key. */
  function FirstQuit(key: string, frames: seq<FrameInput>, i: nat): (r: Option<nat>)
    requires i <= |frames|
    ensures r.Some? ==> (i <= r.value < |frames| && key in frames[r.value].keys
                         && forall j :: i <= j < r.value ==> key !in frames[j].keys)
    ensures r.None? ==> forall j :: i <= j < |frames| ==> key !in frames[j].keys
    decreases |frames| - i
  {
    if i == |frames| then None
    else if key in frames[i].keys then Some(i)
    else FirstQuit(key, frames, i + 1)
  }

  function SpecState(t: Trial, frames: seq<FrameInput>, i: nat): LoopState
    requires i <= |frames|
  {
    LoopState(
      |Reached(t.starts, i)|,
      ChangeTimesAfter(t, frames, i),
      [NaN] + Presses(t.keys.responseKey, frames[..i]),
      seq(i, f requires 0 <= f => ExpectedOrientation(t, f)))
  }

  /** The result of a stimulus period no quit key interrupts. */
  function Completed(t: Trial, frames: seq<FrameInput>): Outcome
  {
    Done(|Reached(t.starts, |frames|)|,
         ChangeTimesAfter(t, frames, |frames|),
         Presses(t.keys.responseKey, frames),
         seq(|frames|, f requires 0 <= f => ExpectedOrientation(t, f)))
  }

  /** What the stimulus period produces, described without the loop. */
  function Expected(t: Trial, frames: seq<FrameInput>): Outcome
  {
    match FirstQuit(t.keys.quitKey, frames, 0)
    case Some(q) => Quit(q)
    case None => Completed(t, frames)
  }

  // ----- The loop meets its description -----

  /** Each counted start frame is a distinct start, so no more events are
      counted than the trial has: change_times is never indexed past its end. */
  lemma ReachedBound(starts: seq<int>, i: nat)
    ensures |Reached(starts, i)| <= |starts|
  {
    var r := Reached(starts, i);
    DistinctElements(r);
    ElementsBound(starts);
    assert Elements(r) <= Elements(starts);
    SubsetCard(Elements(r), Elements(starts));
  }

  function Elements(s: seq<int>): set<int>
  {
    set x | x in s
  }

  lemma SubsetCard(a: set<int>, b: set<int>)
    requires a <= b
    ensures |a| <= |b|
  {
    assert b == a + (b - a);
  }

  lemma {:induction false} DistinctElements(r: seq<int>)
    requires forall a, b :: 0 <= a < b < |r| ==> r[a] != r[b]
    ensures |Elements(r)| == |r|
  {
    if r != [] {
      var last := r[|r| - 1];
      var init := r[..|r| - 1];
      DistinctElements(init);
      assert Elements(r) == Elements(init) + {last};
      assert last !in Elements(init);
    }
  }

  lemma {:induction false} ElementsBound(s: seq<int>)
    ensures |Elements(s)| <= |s|
  {
    if s != [] {
      var init := s[..|s| - 1];
      ElementsBound(init);
      assert Elements(s) == Elements(init) + {s[|s| - 1]};
    }
  }

  /** Stamping at frame i moves the counter and the change times of the
      description from frame i to frame i+1. */
  lemma StampMatchesSpec(t: Trial, frames: seq<FrameInput>, i: nat)
    requires i < |frames|
    ensures Stamp(t, i, frames[i], SpecState(t, frames, i))
         == Some(SpecState(t, frames, i).(events := |Reached(t.starts, i + 1)|,
                                          changeTimes := ChangeTimesAfter(t, frames, i + 1)))
  {
    var st := SpecState(t, frames, i);
    var r := Reached(t.starts, i);
    var r' := Reached(t.starts, i + 1);
    ReachedBound(t.starts, i + 1);
    if i in t.starts {
      var ct := st.changeTimes[|r| := Ms(frames[i].changeClockMs)];
      forall k | 0 <= k < |t.starts|
        ensures ct[k] == ChangeTimesAfter(t, frames, i + 1)[k]
      {
        if k < |r| {
          assert r'[k] == r[k];
        }
      }
      assert ct == ChangeTimesAfter(t, frames, i + 1);
    } else {
      assert r' == r;
    }
  }

  /** On a well-formed trial the orientation chosen at frame i is the described one. */
  lemma OrientMatchesSpec(t: Trial, i: nat)
    requires WellFormed(t)
    ensures Orient(t, ChangeFramesOf(t), i, |Reached(t.starts, i + 1)|) == Some(ExpectedOrientation(t, i))
  {
    ReachedBound(t.starts, i + 1);
    if i in ChangeFramesOf(t) {
      assert |t.starts| > 0;
    }
  }

  lemma PressesStep(key: string, frames: seq<FrameInput>, i: nat)
    requires i < |frames|
    ensures Presses(key, frames[..i + 1]) == Presses(key, frames[..i])
      + (if key in frames[i].keys then [Ms(frames[i].responseClockMs)] else [])
  {
    assert frames[..i + 1][..i] == frames[..i];
  }

  /** The loop body takes the description's state at frame i to the one at frame i+1. */
  lemma StepMatchesSpec(t: Trial, frames: seq<FrameInput>, i: nat)
    requires WellFormed(t) && i < |frames|
    ensures FrameStep(t, ChangeFramesOf(t), i, frames[i], SpecState(t, frames, i))
         == if t.keys.quitKey in frames[i].keys then Stop(Quit(i)) else Next(SpecState(t, frames, i + 1))
  {
    var st := SpecState(t, frames, i);
    var stamped := st.(events := |Reached(t.starts, i + 1)|, changeTimes := ChangeTimesAfter(t, frames, i + 1));
    StampMatchesSpec(t, frames, i);
    assert Stamp(t, i, frames[i], st) == Some(stamped);
    OrientMatchesSpec(t, i);
    if t.keys.quitKey !in frames[i].keys {
      PressesStep(t.keys.responseKey, frames, i);
      OrientationsStep(t, i);
    }
  }

  lemma OrientationsStep(t: Trial, i: nat)
    ensures seq(i, f requires 0 <= f => ExpectedOrientation(t, f)) + [ExpectedOrientation(t, i)]
         == seq(i + 1, f requires 0 <= f => ExpectedOrientation(t, f))
  {
  }

  /** From the description's state at frame i, the loop ends at the first quit
      press from i on, or completes as described. */
  lemma {:induction false} LoopMatchesSpec(t: Trial, frames: seq<FrameInput>, i: nat)
    requires WellFormed(t) && i <= |frames|
    ensures Loop(t, ChangeFramesOf(t), frames, i, SpecState(t, frames, i))
         == match FirstQuit(t.keys.quitKey, frames, i)
            case Some(q) => Quit(q)
            case None => Completed(t, frames)
    decreases |frames| - i
  {
    if i == |frames| {
      assert frames[..i] == frames;
    } else {
      StepMatchesSpec(t, frames, i);
      if t.keys.quitKey !in frames[i].keys {
        LoopMatchesSpec(t, frames, i + 1);
      }
    }
  }

  /** The loop records one orientation per frame it completes. */
  lemma {:induction false} LoopLength(t: Trial, cf: seq<int>, frames: seq<FrameInput>, i: nat, st: LoopState)
    requires i <= |frames| && |st.orientations| == i
    ensures Loop(t, cf, frames, i, st).Done? ==> |Loop(t, cf, frames, i, st).orientations| == |frames|
    decreases |frames| - i
  {
    if i < |frames| {
      match FrameStep(t, cf, i, frames[i], st)
      case Stop(o) =>
      case Next(s) => LoopLength(t, cf, frames, i + 1, s);
    }
  }
}
