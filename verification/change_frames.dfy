/** The frames on which an image is tilted: every event's start frame followed,
    event by event, by the frames that hold its tilt. */
module ChangeFrames {

  /** Frames start+1 .. start+d-1, the rest of one event's tilt. */
  function Hold(start: int, d: int): (r: seq<int>)
    ensures |r| == if d > 1 then d - 1 else 0
  {
    if d > 1 then seq(d - 1, j => start + j + 1) else []
  }

  /** The holds of all events, in the order of the start frames. */
  function Holds(starts: seq<int>, d: int): seq<int>
  {
    if starts == [] then [] else Hold(starts[0], d) + Holds(starts[1..], d)
  }

  /** The change-frame list: the start frames, then each start's hold frames. */
  function Expand(starts: seq<int>, d: int): (r: seq<int>)
    ensures |r| >= |starts| && r[..|starts|] == starts
    ensures |r| > 0 ==> |starts| > 0
  {
    starts + Holds(starts, d)
  }

  /** Every event contributes d frames to the list. */
  lemma ExpandLength(starts: seq<int>, d: int)
    requires d >= 1
    ensures |Expand(starts, d)| == |starts| * d
  {
    HoldsLength(starts, d);
  }

  lemma {:induction false} HoldsLength(starts: seq<int>, d: int)
    requires d >= 1
    ensures |Holds(starts, d)| == |starts| * (d - 1)
  {
    if starts != [] {
      HoldsLength(starts[1..], d);
      assert |starts| * (d - 1) == (d - 1) + (|starts| - 1) * (d - 1);
    }
  }

  /** A frame is a change frame exactly when it lies within d frames from some start. */
  lemma ExpandMembership(starts: seq<int>, d: int, f: int)
    requires d >= 1
    ensures f in Expand(starts, d) <==> exists k :: 0 <= k < |starts| && starts[k] <= f < starts[k] + d
  {
    HoldsMembership(starts, d, f);
    if f in Expand(starts, d) && f !in Holds(starts, d) {
      assert f in starts;
      var k :| 0 <= k < |starts| && starts[k] == f;
    }
  }

  lemma {:induction false} HoldsMembership(starts: seq<int>, d: int, f: int)
    requires d >= 1
    ensures f in Holds(starts, d) <==> exists k :: 0 <= k < |starts| && starts[k] < f < starts[k] + d
  {
    if starts != [] {
      HoldsMembership(starts[1..], d, f);
      assert f in Hold(starts[0], d) <==> starts[0] < f < starts[0] + d by {
        if starts[0] < f < starts[0] + d {
          assert Hold(starts[0], d)[f - starts[0] - 1] == f;
        }
      }
      if exists k :: 0 <= k < |starts| && starts[k] < f < starts[k] + d {
        var k :| 0 <= k < |starts| && starts[k] < f < starts[k] + d;
        if k > 0 {
          assert starts[1..][k - 1] == starts[k];
        }
      }
      if exists k :: 0 <= k < |starts[1..]| && starts[1..][k] < f < starts[1..][k] + d {
        var k :| 0 <= k < |starts[1..]| && starts[1..][k] < f < starts[1..][k] + d;
        assert starts[k + 1] == starts[1..][k];
      }
    }
  }
}
