/** The tilt-magnitude staircase: the first trial is seeded, every later trial
    moves the previous magnitude by the step the performance rule asks for and
    saturates at the bounds. Magnitudes are in tenths of a degree. */
module Staircase {
  import opened Values
  import opened Config

  /** What a trial reads from the previous row of the session file. */
  datatype Previous = Previous(runningPerformance: Num, tiltMagnitude: int)

  /** A trial's tilt magnitude and the change that produced it. */
  datatype TiltUpdate = TiltUpdate(magnitude: int, change: Num)

  /** Saturation at the bounds of the staircase. */
  function Clamp(m: int): (r: int)
    ensures MinTiltMagnitude <= r <= MaxTiltMagnitude
    ensures MinTiltMagnitude <= m <= MaxTiltMagnitude ==> r == m
    ensures m > MaxTiltMagnitude ==> r == MaxTiltMagnitude
    ensures m < MinTiltMagnitude ==> r == MinTiltMagnitude
  {
    if m > MaxTiltMagnitude then MaxTiltMagnitude
    else if m < MinTiltMagnitude then MinTiltMagnitude
    else m
  }

  /** int(prev + change), then saturated. */
  function Adjust(prev: int, change: real): int
  {
    Clamp(Trunc(prev as real + change))
  }

  /** The tilt of trial number accTrial (counted from 1). `step` stands for the
      performance rule sfc.cal_next_tilt(goal_perf, run_perf), whose body is not
      part of this model. */
  function NextTilt(accTrial: int, prev: Option<Previous>, step: (int, Num) -> Num): (r: Result<TiltUpdate>)
    ensures accTrial == 1 ==> r == Ok(TiltUpdate(SeedTiltMagnitude, Fin(0.0)))
    ensures r.Ok? ==> MinTiltMagnitude <= r.value.magnitude <= MaxTiltMagnitude
    ensures r.Err? <==> accTrial != 1 && (prev.None? || step(GoalPerformance, prev.value.runningPerformance).NaN?)
    ensures r.Err? && prev.Some? ==> r.error == NaNToInt
    ensures accTrial != 1 && r.Ok? ==> r.value.change == step(GoalPerformance, prev.value.runningPerformance)
    ensures accTrial != 1 && r.Ok? ==>
      r.value.change.Fin? && r.value.magnitude == Clamp(Trunc(prev.value.tiltMagnitude as real + r.value.change.v))
  {
    if accTrial == 1 then Ok(TiltUpdate(SeedTiltMagnitude, Fin(0.0)))
    else
      match prev
      case None => Err(MissingLog)
      case Some(p) =>
        match step(GoalPerformance, p.runningPerformance)
        case NaN => Err(NaNToInt)
        case Fin(c) => Ok(TiltUpdate(Adjust(p.tiltMagnitude, c), Fin(c)))
  }

  /** A later trial's magnitude is the truncated sum whenever that already lies
      in range; in particular a whole-number sum in range is taken as is. */
  lemma InRangeKept(accTrial: int, p: Previous, step: (int, Num) -> Num)
    requires accTrial != 1
    requires step(GoalPerformance, p.runningPerformance).Fin?
    ensures var c := step(GoalPerformance, p.runningPerformance).v;
      var m := Trunc(p.tiltMagnitude as real + c);
      && (MinTiltMagnitude <= m <= MaxTiltMagnitude ==> NextTilt(accTrial, Some(p), step) == Ok(TiltUpdate(m, Fin(c))))
      && ((c == c.Floor as real && MinTiltMagnitude <= p.tiltMagnitude + c.Floor <= MaxTiltMagnitude)
          ==> NextTilt(accTrial, Some(p), step).value.magnitude == p.tiltMagnitude + c.Floor)
  {
    var c := step(GoalPerformance, p.runningPerformance).v;
    TruncOfWhole(p.tiltMagnitude + c.Floor);
    if c == c.Floor as real {
      assert p.tiltMagnitude as real + c == (p.tiltMagnitude + c.Floor) as real;
    }
  }

  /** A larger step never gives a smaller magnitude. */
  lemma AdjustMonotone(prev: int, c1: real, c2: real)
    requires c1 <= c2
    ensures Adjust(prev, c1) <= Adjust(prev, c2)
  {
    TruncMonotone(prev as real + c1, prev as real + c2);
  }

  /** From an in-range magnitude, a non-negative step never lowers it, a
      non-positive step never raises it, and a zero step keeps it. */
  lemma AdjustDirection(prev: int, c: real)
    requires MinTiltMagnitude <= prev <= MaxTiltMagnitude
    ensures c >= 0.0 ==> Adjust(prev, c) >= prev
    ensures c <= 0.0 ==> Adjust(prev, c) <= prev
    ensures c == 0.0 ==> Adjust(prev, c) == prev
  {
    TruncOfWhole(prev);
    if c >= 0.0 {
      AdjustMonotone(prev, 0.0, c);
    }
    if c <= 0.0 {
      AdjustMonotone(prev, c, 0.0);
    }
  }
}
