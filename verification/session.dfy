/** The session: the key bindings are chosen, then each trial in turn reads the
    previous row of the session file, sets its tilt, runs the stimulus period,
    evaluates the responses and writes its row. The session file is an
    in-memory sequence of rows; the trial loop is a fold over the per-trial
    inputs, and the library calls whose bodies are not modelled are
    parameters. */
module Session {
  import opened Values
  import opened Config
  import opened Conditions
  import opened Staircase
  import opened FrameLoop
  import opened Performance
  import FrameProperties

  const Freq1: real := 12.0   // flicker frequency of image 1, Hz
  const Freq2: real := 7.5    // flicker frequency of image 2, Hz

  /** One row of the session file. */
  datatype Row = Row(
    trialNum: int,
    frequencyTags: (real, real),
    cuedImage: int,
    nEvents: nat,
    tiltedImages: seq<Patch>,
    tiltDirections: seq<Direction>,
    tiltMagnitude: int,
    avgRt: Num,
    instantPerformance: Num,
    cumulativePerformance: Num,
    runningPerformance: Num)

  // ---------------------------------------------------------------------------
  // Building a trial's data frame

  /** A column handed to the DataFrame constructor: a list of values, or a
      scalar that is broadcast to every row. */
  datatype Column = List(length: nat) | Scalar

  /** The length of the first list column, if there is one. */
  function FirstList(columns: seq<Column>): (r: Option<nat>)
    ensures r.None? <==> forall i :: 0 <= i < |columns| ==> columns[i].Scalar?
    ensures r.Some? ==> exists i :: 0 <= i < |columns| && columns[i] == List(r.value)
  {
    if columns == [] then None
    else if columns[0].List? then Some(columns[0].length)
    else
      var r := FirstList(columns[1..]);
      assert r.Some? ==> columns[1..][0] == columns[1];
      if r.Some? then
        assert exists i :: 0 <= i < |columns| && columns[i] == List(r.value) by {
          var i :| 0 <= i < |columns[1..]| && columns[1..][i] == List(r.value);
          assert columns[i + 1] == List(r.value);
        }
        r
      else r
  }

  /** The number of rows pandas builds from a dict of columns: every list
      column must have the same length, and at least one column must be a list. */
  function FrameRows(columns: seq<Column>): (r: Result<nat>)
    ensures r.Ok? <==>
      && (exists i :: 0 <= i < |columns| && columns[i].List?)
      && (forall i, j :: 0 <= i < |columns| && 0 <= j < |columns| && columns[i].List? && columns[j].List?
            ==> columns[i].length == columns[j].length)
    ensures r.Ok? ==> forall i :: 0 <= i < |columns| && columns[i].List? ==> columns[i].length == r.value
    ensures r.Err? ==> r.error == (if forall i :: 0 <= i < |columns| ==> columns[i].Scalar? then ScalarsOnly else RaggedColumns)
  {
    match FirstList(columns)
    case None => Err(ScalarsOnly)
    case Some(n) =>
      if forall i :: 0 <= i < |columns| && columns[i].List? ==> columns[i].length == n then Ok(n)
      else Err(RaggedColumns)
  }

  /** The columns of a trial's record as the script writes them: trial_num,
      Frequency_tags (the two frequencies as a two-element list), cued_image,
      n_events (a scalar), tilted_images, tilt_directions, tilt_magnitude,
      avg_rt, instant, cumulative and running performance. */
  const WrittenColumns: seq<Column> :=
    [List(1), List(2), List(1), Scalar, List(1), List(1), List(1), List(1), List(1), List(1), List(1)]

  /** The same columns with the two frequencies held as one cell. */
  const TrialColumns: seq<Column> :=
    [List(1), List(1), List(1), Scalar, List(1), List(1), List(1), List(1), List(1), List(1), List(1)]

  /** pd.concat of the rows read back and the frame built from one trial's
      columns. Only a one-row frame is ever saved (RecordIsOneRow). For a frame
      of several rows pandas would take each row's values from the list
      entries; the contents of such rows are not modelled, and every one of
      them is given the record's values. */
  function Append(log: seq<Row>, columns: seq<Column>, row: Row): (r: Result<seq<Row>>)
    ensures r.Err? <==> FrameRows(columns).Err?
    ensures r.Ok? ==> |r.value| == |log| + FrameRows(columns).value
    ensures r.Ok? ==> r.value[..|log|] == log
    ensures r.Ok? ==> forall k :: |log| <= k < |r.value| ==> r.value[k] == row
  {
    match FrameRows(columns)
    case Err(e) => Err(e)
    case Ok(n) => Ok(log + seq(n, _ => row))
  }

  /** As written, the record's columns have different lengths, so building the
      frame raises before anything is saved, on the very first trial. */
  lemma WrittenRecordRejected(log: seq<Row>, row: Row)
    ensures FrameRows(WrittenColumns) == Err(RaggedColumns)
    ensures Append(log, WrittenColumns, row) == Err(RaggedColumns)
  {
    assert WrittenColumns[0].length != WrittenColumns[1].length;
  }

  /** With the frequencies in one cell, a trial's record is exactly one row
      appended after the rows already saved. */
  lemma RecordIsOneRow(log: seq<Row>, row: Row)
    ensures FrameRows(TrialColumns) == Ok(1)
    ensures Append(log, TrialColumns, row) == Ok(log + [row])
  {
    assert TrialColumns[0].List?;
    assert seq(1, _ => row) == [row];
  }

  // ---------------------------------------------------------------------------
  // Reading and filling the session file

  /** The instant performance column. */
  function Instants(log: seq<Row>): (r: seq<Num>)
    ensures |r| == |log|
  {
    seq(|log|, k requires 0 <= k < |log| => log[k].instantPerformance)
  }

  /** Entry k of the column is row k's instant performance. */
  lemma InstantsAt(log: seq<Row>)
    ensures forall k :: 0 <= k < |log| ==> Instants(log)[k] == log[k].instantPerformance
  {
  }

  /** df.loc[accTrial - 2] of the rows read back: nothing when the row is missing. */
  function PreviousRow(log: seq<Row>, accTrial: int): (r: Option<Previous>)
    ensures r.Some? <==> 0 <= accTrial - 2 < |log|
    ensures r.Some? ==>
      r.value.runningPerformance == log[accTrial - 2].runningPerformance
      && r.value.tiltMagnitude == log[accTrial - 2].tiltMagnitude
  {
    if 0 <= accTrial - 2 < |log| then
      Some(Previous(log[accTrial - 2].runningPerformance, log[accTrial - 2].tiltMagnitude))
    else None
  }

  /** dfnew.loc[idx, [cumulative, running]] = [c, run]: those two fields of row
      idx take the new values and nothing else in the file changes. */
  function Backfill(log: seq<Row>, idx: nat, c: Num, run: Num): (r: seq<Row>)
    requires idx < |log|
    ensures |r| == |log|
    ensures forall k :: 0 <= k < |log| && k != idx ==> r[k] == log[k]
    ensures r[idx].cumulativePerformance == c && r[idx].runningPerformance == run
    ensures r[idx] == log[idx].(cumulativePerformance := c, runningPerformance := run)
    ensures Instants(r) == Instants(log)
  {
    var r := log[idx := log[idx].(cumulativePerformance := c, runningPerformance := run)];
    InstantsAt(r);
    InstantsAt(log);
    assert forall k :: 0 <= k < |log| ==> Instants(r)[k] == Instants(log)[k];
    r
  }

  // ---------------------------------------------------------------------------
  // The trial and the session

  /** What one trial draws from outside: the event start frames
      (gen_events.gen_events2), the tilted image and direction of each event
      (np.random.choice), and the key poll and clock readings of each frame of
      the stimulus period. */
  datatype TrialInput = TrialInput(starts: seq<int>, images: seq<Patch>, dirs: seq<Direction>, frames: seq<FrameInput>)

  /** One image and one direction per event, one reading per frame of the trial. */
  predicate ValidInput(x: TrialInput)
  {
    |x.images| == |x.starts| && |x.dirs| == |x.starts| && |x.frames| == TrialDuration
  }

  /** The session's settings and the calls whose bodies are not modelled: the
      shuffle permutation (np.random.shuffle), the staircase step
      (sfc.cal_next_tilt) and the response evaluation (eval_resp, which gives
      the instant performance and the average reaction time). */
  datatype Setup = Setup(
    subject: string,
    keyboard: string,
    perm: seq<int>,
    step: (int, Num) -> Num,
    eval: (int, seq<Patch>, seq<Num>, seq<Num>) -> (Num, Num))

  /** Only a subject other than the test subject has a session file. */
  predicate Saving(s: Setup)
  {
    s.subject != TestSubject
  }

  /** Between trials the session is running; it stops on the quit key
      (core.quit) or on an exception. Each state carries the session file. */
  datatype SessionState =
    | Ongoing(keys: CommandKeys, log: seq<Row>)
    | Aborted(log: seq<Row>)
    | Failed(error: Error, log: seq<Row>)

  /** A saving session's file after trial number itrial + 1: its record is
      appended after the rows read back, and from the second trial on the new
      row, row acc_trial - 1, receives the cumulative and running performance
      of the whole instant performance column. */
  function SaveRow(log: seq<Row>, itrial: nat, row: Row): (r: seq<Row>)
    requires |log| == itrial
    ensures |r| == |log| + 1 && r[..|log|] == log
    ensures Instants(r) == Instants(log) + [row.instantPerformance]
    ensures itrial == 0 ==> r == [row]
    ensures itrial > 0 ==>
      r[itrial] == row.(cumulativePerformance := Cumulative(Instants(r)), runningPerformance := Running(Instants(r)))
  {
    RecordIsOneRow(log, row);
    var logged := Append(log, TrialColumns, row).value;
    InstantsAt(logged);
    InstantsAt(log);
    assert Instants(logged) == Instants(log) + [row.instantPerformance];
    if itrial > 0 then
      var perf := Instants(logged);
      Backfill(logged, itrial, Cumulative(perf), Running(perf))
    else logged
  }

  /** Trial number itrial + 1 on the session file log. */
  function RunTrial(s: Setup, keys: CommandKeys, itrial: nat, x: TrialInput, log: seq<Row>): (r: SessionState)
    requires IsPermutation(s.perm, NTrials) && itrial < NTrials && ValidInput(x)
    requires Saving(s) ==> |log| == itrial
    requires !Saving(s) ==> log == []
    ensures !r.Ongoing? ==> r.log == log
    ensures r.Ongoing? ==> r.keys == keys
    ensures r.Ongoing? && Saving(s) ==> |r.log| == |log| + 1 && r.log[..|log|] == log
    ensures r.Ongoing? && !Saving(s) ==> r.log == [] && itrial == 0
  {
    var accTrial := itrial + 1;
    var cue := Shuffle(s.perm).cues[itrial];
    match NextTilt(accTrial, PreviousRow(log, accTrial), s.step)
    case Err(e) => Failed(e, log)
    case Ok(tilt) =>
      var t := Trial(x.starts, x.images, x.dirs, tilt.magnitude, keys);
      match RunFrames(t, x.frames)
      case Quit(_) => Aborted(log)
      case Crash(_) => Failed(IndexOutOfRange, log)
      case Done(_, changeTimes, responseTimes, _) =>
        EndTrial(s, keys, itrial, cue, x, tilt.magnitude, changeTimes, responseTimes, log)
  }

  /** The end of trial number itrial + 1 once its stimulus period is over: the
      responses are evaluated, the instant performance is printed through
      int(), and on a saving session the row is saved. */
  function EndTrial(s: Setup, keys: CommandKeys, itrial: nat, cue: int, x: TrialInput, magnitude: int,
                    changeTimes: seq<Num>, responseTimes: seq<Num>, log: seq<Row>): (r: SessionState)
    requires Saving(s) ==> |log| == itrial
    requires !Saving(s) ==> log == []
    ensures !r.Ongoing? ==> r.log == log
    ensures r.Ongoing? ==> r.keys == keys
    ensures r.Ongoing? <==> s.eval(cue, x.images, changeTimes, responseTimes).0.Fin? && (Saving(s) || itrial == 0)
    ensures r.Ongoing? && Saving(s) ==>
      r.log == SaveRow(log, itrial, Row(itrial + 1, (Freq1, Freq2), cue, |x.starts|, x.images, x.dirs, magnitude,
                                        s.eval(cue, x.images, changeTimes, responseTimes).1,
                                        s.eval(cue, x.images, changeTimes, responseTimes).0, NaN, NaN))
    ensures r.Ongoing? && !Saving(s) ==> r.log == []
  {
    var (instant, avgRt) := s.eval(cue, x.images, changeTimes, responseTimes);
    if instant.NaN? then Failed(NaNToInt, log)
    else
      var row := Row(itrial + 1, (Freq1, Freq2), cue, |x.starts|, x.images, x.dirs,
                     magnitude, avgRt, instant, NaN, NaN);
      if Saving(s) then Ongoing(keys, SaveRow(log, itrial, row))
      else if itrial > 0 then Failed(UndefinedFrame, log)
      else Ongoing(keys, log)
  }

  /** The session after the trials whose inputs are given, in order. */
  function RunSession(s: Setup, inputs: seq<TrialInput>): (r: SessionState)
    requires IsPermutation(s.perm, NTrials) && |inputs| <= NTrials
    requires forall k :: 0 <= k < |inputs| ==> ValidInput(inputs[k])
    ensures Saving(s) && r.Ongoing? ==> |r.log| == |inputs|
    ensures Saving(s) && !r.Ongoing? ==> |r.log| < |inputs| || |inputs| == 0
    ensures !Saving(s) ==> r.log == []
    ensures !Saving(s) && r.Ongoing? ==> |inputs| <= 1
  {
    if inputs == [] then
      match KeyBindings(s.keyboard)
      case Err(e) => Failed(e, [])
      case Ok(keys) => Ongoing(keys, [])
    else
      var n := |inputs| - 1;
      match RunSession(s, inputs[..n])
      case Ongoing(keys, log) => RunTrial(s, keys, n, inputs[n], log)
      case stopped => stopped
  }

  // ---------------------------------------------------------------------------
  // The session file

  /** What the last of `rows`, row k = |rows| - 1, holds once trial k + 1
      (cue cues[k], input inputs[k]) has been written after the k rows before
      it: its number, cue, events and tilt; a finite instant performance; on the
      first row the seeded magnitude and no cumulative or running performance;
      on every later row the staircase step from the previous row, and the
      cumulative and running performance of all k + 1 instant performances. */
  predicate RowFits(step: (int, Num) -> Num, cues: seq<int>, inputs: seq<TrialInput>, rows: seq<Row>)
    requires 0 < |rows| <= |inputs| <= |cues|
  {
    var k := |rows| - 1;
    var row := rows[k];
    var x := inputs[k];
    && row.trialNum == k + 1
    && row.cuedImage == cues[k]
    && row.nEvents == |x.starts|
    && row.tiltedImages == x.images && row.tiltDirections == x.dirs
    && MinTiltMagnitude <= row.tiltMagnitude <= MaxTiltMagnitude
    && row.instantPerformance.Fin?
    && (k == 0 ==>
          && row.tiltMagnitude == SeedTiltMagnitude
          && row.cumulativePerformance == NaN
          && row.runningPerformance == NaN)
    && (k > 0 ==>
          var next := NextTilt(k + 1, Some(Previous(rows[k - 1].runningPerformance, rows[k - 1].tiltMagnitude)), step);
          && next.Ok? && row.tiltMagnitude == next.value.magnitude
          && row.cumulativePerformance == Cumulative(Instants(rows))
          && row.runningPerformance == Running(Instants(rows)))
  }

  /** What trial number |log| + 1 puts in its record before saving it: its
      number, cue and events, the tilt the staircase gives on the rows read
      back, a finite instant performance and no means yet. */
  predicate RecordOf(step: (int, Num) -> Num, cue: int, x: TrialInput, log: seq<Row>, row: Row)
  {
    var tilt := NextTilt(|log| + 1, PreviousRow(log, |log| + 1), step);
    && row.trialNum == |log| + 1 && row.cuedImage == cue
    && row.nEvents == |x.starts| && row.tiltedImages == x.images && row.tiltDirections == x.dirs
    && tilt.Ok? && row.tiltMagnitude == tilt.value.magnitude
    && row.instantPerformance.Fin? && row.cumulativePerformance == NaN && row.runningPerformance == NaN
  }

  /** A trial of a saving session that goes on saves its record, and that
      record is the trial's. */
  lemma OngoingTrialSaves(s: Setup, keys: CommandKeys, x: TrialInput, log: seq<Row>) returns (row: Row)
    requires IsPermutation(s.perm, NTrials) && |log| < NTrials && ValidInput(x)
    requires Saving(s) && RunTrial(s, keys, |log|, x, log).Ongoing?
    ensures RunTrial(s, keys, |log|, x, log).log == SaveRow(log, |log|, row)
    ensures RecordOf(s.step, Shuffle(s.perm).cues[|log|], x, log, row)
  {
    var itrial := |log|;
    var tilt := NextTilt(itrial + 1, PreviousRow(log, itrial + 1), s.step);
    var t := Trial(x.starts, x.images, x.dirs, tilt.value.magnitude, keys);
    var o := RunFrames(t, x.frames);
    var cue := Shuffle(s.perm).cues[itrial];
    var (instant, avgRt) := s.eval(cue, x.images, o.changeTimes, o.responseTimes);
    row := Row(itrial + 1, (Freq1, Freq2), cue, |x.starts|, x.images, x.dirs,
               tilt.value.magnitude, avgRt, instant, NaN, NaN);
  }

  /** A trial that goes on writes a row that fits the rows before it. */
  lemma TrialWritesFittingRow(s: Setup, keys: CommandKeys, inputs: seq<TrialInput>, log: seq<Row>)
    requires IsPermutation(s.perm, NTrials) && 0 < |inputs| <= NTrials
    requires ValidInput(inputs[|inputs| - 1])
    requires Saving(s) && |log| == |inputs| - 1
    requires RunTrial(s, keys, |log|, inputs[|log|], log).Ongoing?
    ensures RowFits(s.step, Shuffle(s.perm).cues, inputs, RunTrial(s, keys, |log|, inputs[|log|], log).log)
  {
    var row := OngoingTrialSaves(s, keys, inputs[|log|], log);
    SavedRowFits(s.step, Shuffle(s.perm).cues, inputs, log, row);
  }

  /** A trial's record, saved after the rows read back, is a row that fits
      the rows before it. */
  lemma SavedRowFits(step: (int, Num) -> Num, cues: seq<int>, inputs: seq<TrialInput>, log: seq<Row>, row: Row)
    requires |log| < |inputs| <= |cues|
    requires RecordOf(step, cues[|log|], inputs[|log|], log, row)
    ensures RowFits(step, cues, inputs, SaveRow(log, |log|, row))
  {
    var r := SaveRow(log, |log|, row);
    if |log| > 0 {
      assert r[|log| - 1] == log[|log| - 1];
    }
  }

  /** Every row of a file written by the trials with the given inputs, on the
      given cue column, fits the rows before it. */
  predicate ConsistentLog(step: (int, Num) -> Num, cues: seq<int>, inputs: seq<TrialInput>, log: seq<Row>)
    requires |inputs| <= |cues|
  {
    && |log| <= |inputs|
    && forall n {:trigger RowFits(step, cues, inputs, log[..n])} ::
         0 < n <= |log| ==> RowFits(step, cues, inputs, log[..n])
  }

  /** Consistency with the first trials' inputs is consistency with any longer input. */
  lemma ConsistentWithLongerInputs(step: (int, Num) -> Num, cues: seq<int>, before: seq<TrialInput>, inputs: seq<TrialInput>, log: seq<Row>)
    requires |inputs| <= |cues|
    requires before <= inputs && ConsistentLog(step, cues, before, log)
    ensures ConsistentLog(step, cues, inputs, log)
  {
    forall n | 0 < n <= |log|
      ensures RowFits(step, cues, inputs, log[..n])
    {
      assert RowFits(step, cues, before, log[..n]);
      assert before[n - 1] == inputs[n - 1];
    }
  }

  /** A consistent file stays consistent when a fitting row is appended. */
  lemma ExtendConsistent(step: (int, Num) -> Num, cues: seq<int>, inputs: seq<TrialInput>, log: seq<Row>, longer: seq<Row>)
    requires |inputs| <= |cues|
    requires ConsistentLog(step, cues, inputs, log)
    requires |longer| == |log| + 1 <= |inputs| && longer[..|log|] == log
    requires RowFits(step, cues, inputs, longer)
    ensures ConsistentLog(step, cues, inputs, longer)
  {
    forall n | 0 < n <= |longer|
      ensures RowFits(step, cues, inputs, longer[..n])
    {
      if n < |longer| {
        assert longer[..n] == log[..n];
      } else {
        assert longer[..n] == longer;
      }
    }
  }

  /** A trial run on a consistent file leaves a consistent file. */
  lemma TrialKeepsConsistent(s: Setup, keys: CommandKeys, inputs: seq<TrialInput>, log: seq<Row>)
    requires IsPermutation(s.perm, NTrials) && 0 < |inputs| <= NTrials
    requires forall k :: 0 <= k < |inputs| ==> ValidInput(inputs[k])
    requires Saving(s) ==> |log| == |inputs| - 1
    requires !Saving(s) ==> log == []
    requires ConsistentLog(s.step, Shuffle(s.perm).cues, inputs, log)
    ensures ConsistentLog(s.step, Shuffle(s.perm).cues, inputs, RunTrial(s, keys, |inputs| - 1, inputs[|inputs| - 1], log).log)
  {
    var n := |inputs| - 1;
    var r := RunTrial(s, keys, n, inputs[n], log);
    if r.Ongoing? && Saving(s) {
      TrialWritesFittingRow(s, keys, inputs, log);
      ExtendConsistent(s.step, Shuffle(s.perm).cues, inputs, log, r.log);
    }
  }

  /** Every row of the session file fits the rows before it: what the trial
      loop promises about the file it writes. */
  lemma {:induction false} SessionLogConsistent(s: Setup, inputs: seq<TrialInput>)
    requires IsPermutation(s.perm, NTrials) && |inputs| <= NTrials
    requires forall k :: 0 <= k < |inputs| ==> ValidInput(inputs[k])
    ensures ConsistentLog(s.step, Shuffle(s.perm).cues, inputs, RunSession(s, inputs).log)
  {
    if inputs != [] {
      var n := |inputs| - 1;
      var before := inputs[..n];
      SessionLogConsistent(s, before);
      var prev := RunSession(s, before);
      ConsistentWithLongerInputs(s.step, Shuffle(s.perm).cues, before, inputs, prev.log);
      if prev.Ongoing? {
        TrialKeepsConsistent(s, prev.keys, inputs, prev.log);
      }
    }
  }

  /** Rows are only ever appended: the file after the first j trials is a prefix
      of the file after all of them, so a row never changes once its trial is over. */
  lemma {:induction false} LogOnlyGrows(s: Setup, inputs: seq<TrialInput>, j: nat)
    requires IsPermutation(s.perm, NTrials) && |inputs| <= NTrials
    requires forall k :: 0 <= k < |inputs| ==> ValidInput(inputs[k])
    requires j <= |inputs|
    ensures RunSession(s, inputs[..j]).log <= RunSession(s, inputs).log
  {
    if j < |inputs| {
      var n := |inputs| - 1;
      assert inputs[..n][..j] == inputs[..j];
      LogOnlyGrows(s, inputs[..n], j);
      assert inputs[..n] == inputs[..|inputs| - 1];
    } else {
      assert inputs[..j] == inputs;
    }
  }

  /** Row k of the session file: its number, cue, events and tilt; a finite
      instant performance; on the first row the seeded magnitude and no
      cumulative or running performance; on every later row the staircase step
      taken from the previous row's running performance and magnitude, and the
      cumulative and running performance of the instant performances of rows
      0 .. k. */
  lemma SessionRow(s: Setup, inputs: seq<TrialInput>, k: nat)
    requires IsPermutation(s.perm, NTrials) && |inputs| <= NTrials
    requires forall k :: 0 <= k < |inputs| ==> ValidInput(inputs[k])
    requires k < |RunSession(s, inputs).log|
    ensures var log := RunSession(s, inputs).log;
      var row := log[k];
      && k < |inputs|
      && row.trialNum == k + 1
      && row.cuedImage == Shuffle(s.perm).cues[k]
      && row.nEvents == |inputs[k].starts|
      && row.tiltedImages == inputs[k].images && row.tiltDirections == inputs[k].dirs
      && MinTiltMagnitude <= row.tiltMagnitude <= MaxTiltMagnitude
      && row.instantPerformance.Fin?
      && (k == 0 ==>
            && row.tiltMagnitude == SeedTiltMagnitude
            && row.cumulativePerformance == NaN
            && row.runningPerformance == NaN)
      && (k > 0 ==>
            var next := NextTilt(k + 1, Some(Previous(log[k - 1].runningPerformance, log[k - 1].tiltMagnitude)), s.step);
            && next.Ok? && row.tiltMagnitude == next.value.magnitude
            && row.cumulativePerformance == Cumulative(Instants(log[..k + 1]))
            && row.runningPerformance == Running(Instants(log[..k + 1])))
  {
    SessionLogConsistent(s, inputs);
    var log := RunSession(s, inputs).log;
    assert RowFits(s.step, Shuffle(s.perm).cues, inputs, log[..k + 1]);
    assert log[..k + 1][k] == log[k];
    if k > 0 {
      assert log[..k + 1][k - 1] == log[k - 1];
    }
  }

  /** Every instant performance in the session file is finite. */
  lemma InstantsFinite(s: Setup, inputs: seq<TrialInput>)
    requires IsPermutation(s.perm, NTrials) && |inputs| <= NTrials
    requires forall k :: 0 <= k < |inputs| ==> ValidInput(inputs[k])
    ensures forall k :: 0 <= k < |RunSession(s, inputs).log| ==> RunSession(s, inputs).log[k].instantPerformance.Fin?
  {
    SessionLogConsistent(s, inputs);
    var log := RunSession(s, inputs).log;
    forall k | 0 <= k < |log|
      ensures log[k].instantPerformance.Fin?
    {
      assert RowFits(s.step, Shuffle(s.perm).cues, inputs, log[..k + 1]);
      assert log[..k + 1][k] == log[k];
    }
  }

  /** The cumulative and running performance are written from the second trial
      on, never on the first; from then on both are finite; and up to the
      tenth trial the two agree. */
  lemma PerformanceColumns(s: Setup, inputs: seq<TrialInput>, k: nat)
    requires IsPermutation(s.perm, NTrials) && |inputs| <= NTrials
    requires forall k :: 0 <= k < |inputs| ==> ValidInput(inputs[k])
    requires k < |RunSession(s, inputs).log|
    ensures var row := RunSession(s, inputs).log[k];
      && (k == 0 ==> row.cumulativePerformance == NaN && row.runningPerformance == NaN)
      && (k > 0 ==> row.cumulativePerformance.Fin? && row.runningPerformance.Fin?)
      && (0 < k < RunningWindow ==> row.runningPerformance == row.cumulativePerformance)
  {
    SessionRow(s, inputs, k);
    InstantsFinite(s, inputs);
    if k > 0 {
      PrefixPerformance(RunSession(s, inputs).log, k);
    }
  }

  /** Over finite instant performances, the means of rows 0 .. k are finite,
      and the running one is the cumulative one up to the tenth row. */
  lemma PrefixPerformance(log: seq<Row>, k: nat)
    requires k < |log|
    requires forall i :: 0 <= i < |log| ==> log[i].instantPerformance.Fin?
    ensures var perf := Instants(log[..k + 1]);
      && Cumulative(perf).Fin? && Running(perf).Fin?
      && (k < RunningWindow ==> Running(perf) == Cumulative(perf))
  {
    var perf := Instants(log[..k + 1]);
    InstantsAt(log[..k + 1]);
    assert forall i :: 0 <= i < |perf| ==> perf[i] == log[i].instantPerformance;
    assert !HasNaN(perf);
    CumulativeNaN(perf);
    RunningNaN(perf);
    if k < RunningWindow {
      RunningEqualsCumulativeEarly(perf);
    }
  }

  /** A finite value within [lo, hi]. */
  predicate Within(x: Num, lo: real, hi: real)
  {
    x.Fin? && lo <= x.v <= hi
  }

  /** Every performance written lies within 0 .. 100 when every instant
      performance the evaluation returns does. */
  lemma PerformanceWithinBounds(s: Setup, inputs: seq<TrialInput>, k: nat)
    requires IsPermutation(s.perm, NTrials) && |inputs| <= NTrials
    requires forall k :: 0 <= k < |inputs| ==> ValidInput(inputs[k])
    requires forall k :: 0 <= k < |RunSession(s, inputs).log| ==>
               Within(RunSession(s, inputs).log[k].instantPerformance, 0.0, 100.0)
    requires 0 < k < |RunSession(s, inputs).log|
    ensures var row := RunSession(s, inputs).log[k];
      Within(row.cumulativePerformance, 0.0, 100.0) && Within(row.runningPerformance, 0.0, 100.0)
  {
    SessionRow(s, inputs, k);
    var log := RunSession(s, inputs).log;
    var perf := Instants(log[..k + 1]);
    InstantsAt(log[..k + 1]);
    forall i | 0 <= i < |perf|
      ensures perf[i].Fin? && 0.0 <= perf[i].v <= 100.0
    {
      assert Within(log[i].instantPerformance, 0.0, 100.0);
    }
    PerformanceWithinPercent(perf);
  }

  /** An unknown keyboard name stops the session before any trial, with an empty file. */
  lemma UnknownKeyboardStops(s: Setup, inputs: seq<TrialInput>)
    requires IsPermutation(s.perm, NTrials) && |inputs| <= NTrials
    requires forall k :: 0 <= k < |inputs| ==> ValidInput(inputs[k])
    requires s.keyboard != "numpad" && s.keyboard != "mac"
    ensures RunSession(s, inputs) == Failed(UnknownKeyboard(s.keyboard), [])
  {
    StoppedStaysStopped(s, inputs, 0);
  }

  /** Once the session has stopped, later inputs change nothing. */
  lemma {:induction false} StoppedStaysStopped(s: Setup, inputs: seq<TrialInput>, j: nat)
    requires IsPermutation(s.perm, NTrials) && |inputs| <= NTrials
    requires forall k :: 0 <= k < |inputs| ==> ValidInput(inputs[k])
    requires j <= |inputs| && !RunSession(s, inputs[..j]).Ongoing?
    ensures RunSession(s, inputs) == RunSession(s, inputs[..j])
  {
    if j < |inputs| {
      var n := |inputs| - 1;
      assert inputs[..n][..j] == inputs[..j];
      StoppedStaysStopped(s, inputs[..n], j);
    } else {
      assert inputs[..j] == inputs;
    }
  }

  /** Some frame's key poll holds the key. */
  predicate QuitPressed(key: string, frames: seq<FrameInput>)
  {
    exists f :: 0 <= f < |frames| && key in frames[f].keys
  }

  /** A trial whose stimulus period sees the quit key stops the session and
      writes nothing for it. */
  lemma TrialQuits(s: Setup, keys: CommandKeys, itrial: nat, x: TrialInput, log: seq<Row>)
    requires IsPermutation(s.perm, NTrials) && itrial < NTrials && ValidInput(x)
    requires Saving(s) ==> |log| == itrial
    requires !Saving(s) ==> log == []
    requires NextTilt(itrial + 1, PreviousRow(log, itrial + 1), s.step).Ok?
    requires QuitPressed(keys.quitKey, x.frames)
    ensures RunTrial(s, keys, itrial, x, log) == Aborted(log)
  {
    var tilt := NextTilt(itrial + 1, PreviousRow(log, itrial + 1), s.step).value;
    var t := Trial(x.starts, x.images, x.dirs, tilt.magnitude, keys);
    FrameProperties.QuitOnFirstQuitKey(t, x.frames);
  }

  /** Pressing the quit key during the last trial given stops the session
      there, with the file as the earlier trials left it. */
  lemma QuitWritesNothing(s: Setup, inputs: seq<TrialInput>, keys: CommandKeys, log: seq<Row>)
    requires IsPermutation(s.perm, NTrials) && 0 < |inputs| <= NTrials
    requires forall k :: 0 <= k < |inputs| ==> ValidInput(inputs[k])
    requires RunSession(s, inputs[..|inputs| - 1]) == Ongoing(keys, log)
    requires NextTilt(|inputs|, PreviousRow(log, |inputs|), s.step).Ok?
    requires QuitPressed(keys.quitKey, inputs[|inputs| - 1].frames)
    ensures RunSession(s, inputs) == Aborted(log)
  {
    var n := |inputs| - 1;
    TrialQuits(s, keys, n, inputs[n], log);
  }

  /** The first row never receives a running performance, so the second trial
      hands NaN to the staircase step; a step that answers NaN stops the
      session there with int() of NaN. */
  lemma SecondTrialReadsNaN(s: Setup, inputs: seq<TrialInput>)
    requires IsPermutation(s.perm, NTrials) && 2 <= |inputs| <= NTrials
    requires forall k :: 0 <= k < |inputs| ==> ValidInput(inputs[k])
    requires Saving(s) && RunSession(s, inputs[..1]).Ongoing?
    ensures RunSession(s, inputs[..1]).log[0].runningPerformance == NaN
    ensures s.step(GoalPerformance, NaN).NaN? ==>
      RunSession(s, inputs[..2]) == Failed(NaNToInt, RunSession(s, inputs[..1]).log)
  {
    SessionRow(s, inputs[..1], 0);
    assert inputs[..2][..1] == inputs[..1];
  }

  /** The test subject has no session file: the first trial writes nothing and
      the second one fails to read the previous row. */
  lemma TestSubjectStopsAtSecondTrial(s: Setup, inputs: seq<TrialInput>)
    requires IsPermutation(s.perm, NTrials) && 2 <= |inputs| <= NTrials
    requires forall k :: 0 <= k < |inputs| ==> ValidInput(inputs[k])
    requires !Saving(s)
    ensures !RunSession(s, inputs).Ongoing? && RunSession(s, inputs).log == []
    ensures RunSession(s, inputs[..1]).Ongoing? ==> RunSession(s, inputs[..2]) == Failed(MissingLog, [])
  {
    assert inputs[..2][..1] == inputs[..1];
  }
}
