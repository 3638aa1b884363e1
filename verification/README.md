# A Dafny model of the cyc03 feature-based-attention trial script

`stimulus/cyc03_FBA.py` runs a PsychoPy experiment. Two flickering images are
shown and one of them is cued. During each trial's stimulus period one of the
two images briefly tilts, and the subject presses a response key when that
happens. A staircase adapts the tilt magnitude to the running accuracy. One row
per trial is written to a JSON session file.

This project models the script's logic and leaves out the display. It covers:

- the shuffled condition table
- the tilt staircase with its seed and saturation
- the expansion of event start frames into change frames
- the per-frame loop, which does the following:
  - counts events and stamps their change times
  - tilts the image the current event selects
  - records response-key presses
  - quits on the quit key
- the response list
- the session file, with its cumulative and running performance columns
- the key bindings

The modules follow the script's structure:

- `Values`: numpy floats that may be NaN, the exceptions the script can raise, and Python's subscript (negative indices count from the back) and `int()` truncation.
- `Config`: the constants and the key bindings.
- `Conditions`: numpy `repeat`, `tile` and fancy indexing, and the shuffled table.
- `Staircase`: the tilt for the next trial.
- `ChangeFrames`: the change-frame list.
- `FrameLoop`: the frame loop as the script runs it (`Loop`, `FrameStep`), together with a loop-free description of its result (`Expected`). Frame by frame, the loop is proved to meet that description.
- `FrameProperties`: what follows from that description.
- `Performance`: `sum(x)/len(x)` over a float column, where one NaN makes the result NaN, and the ten-trial window.
- `Session`: the trial loop as a fold over per-trial inputs, the session file as a sequence of rows, and the properties of the file the loop writes.

How things outside the script's logic are represented:

- **Randomness.** Each nondeterministic value is a parameter:
  - the shuffle permutation
  - the event start frames from `gen_events.gen_events2`
  - each event's image and direction, from `np.random.choice`
- **Clock and keyboard.** Each frame supplies its key poll and two clock readings in ms: the one before the flip is the change time and the one after it is the response time.
- **Opaque library calls.** `sfc.cal_next_tilt` and `eval_resp` are function parameters (`Setup.step`, `Setup.eval`) whose bodies are not part of this model.
- **Orientations.** They are kept in tenths of a degree, so `-tilt_mag / 10` degrees is `-tilt_mag`.

In four places the model follows the code where its written description says
something else:

- **Clock.** The clock (`timer`, line 160) is created once and never reset. Change and response times are therefore measured from the start of the session, not from the start of the trial. The model takes them as readings of that one clock.
- **NaN instant performance.** Line 421 applies `int()` to `instant_perf` even in the branch for a NaN reaction time. A NaN instant performance therefore raises, and the session stops (`NaNToInt`). Every logged instant performance is finite.
- **The first row.** It never receives a running performance: the back-fill at lines 456-468 only runs from the second trial on. The second trial therefore hands NaN to the staircase step. Whether that step copes with NaN is up to the library, so the model keeps it a parameter (`SecondTrialReadsNaN`).
- **The test subject.** Its session file is never written (line 429). The second trial's read of the previous row (lines 201-205) therefore fails (`TestSubjectStopsAtSecondTrial`). This assumes no file from an earlier session is lying at the save path.

## Model

| member | source | states |
|---|---|---|
| Config.KeyBindings | stimulus/cyc03_FBA.py:153-158 | exactly the names "numpad" and "mac" are accepted; numpad binds quit to backspace and response to num_0, mac binds escape and space; any other name raises the keyboard-name error naming it; the two keys always differ |
| Config.FrameCounts | stimulus/cyc03_FBA.py:104-128 | at 60 Hz a trial's stimulus period is 420 frames, a tilt is held for int(60 / 2) = 30 frames, and there are 2·3·15 = 90 trials |
| Conditions.Shuffle | stimulus/cyc03_FBA.py:172-189 | for any permutation of 0..89 both columns have 90 entries (the asserts of lines 188-189 hold), cues are 1 or 2, tilt slots are 0 or 1, and the multiset of (cue, tilt) pairs is that of the unshuffled table: the shuffle never separates a cue from its tilt slot |
| Conditions.UnshuffledPairs | stimulus/cyc03_FBA.py:172-180 | before the shuffle the table is the six base conditions (1,0),(1,0),(1,1),(2,0),(2,0),(2,1), each repeated 15 times in a row |
| Conditions.ConditionCounts | stimulus/cyc03_FBA.py:172-189 | after any shuffle, cue 1 goes with tilt slot 0 in 30 trials and with slot 1 in 15, and so does cue 2; 90 trials in all |
| Conditions.ShuffleKeepsPairs | stimulus/cyc03_FBA.py:183-186 | indexing both columns with one permutation permutes their pairs |
| Conditions.GatherPermutes | stimulus/cyc03_FBA.py:185-186 | two index sequences that hold the same indices select the same multiset of entries |
| Conditions.RepeatCounts | stimulus/cyc03_FBA.py:179-180 | np.repeat by k multiplies the number of occurrences of every value by k |
| Staircase.NextTilt | stimulus/cyc03_FBA.py:276-287 | trial 1 gets magnitude 50 and change 0; any later trial fails exactly when the previous row is missing or the step is NaN (int() of NaN); otherwise its change is the step for goal 80 and the previous running performance, and its magnitude is int(previous magnitude + change) saturated to 1..99 |
| Staircase.Clamp | stimulus/cyc03_FBA.py:284-287 | the result is always in 1..99; a value in range is kept; above 99 gives 99, below 1 gives 1 |
| Staircase.InRangeKept | stimulus/cyc03_FBA.py:281-287 | when int(previous magnitude + change) lies in 1..99 it is the new magnitude; a whole-number change moves the magnitude by exactly that much |
| Staircase.AdjustMonotone | stimulus/cyc03_FBA.py:282-287 | a larger change never gives a smaller magnitude |
| Staircase.AdjustDirection | stimulus/cyc03_FBA.py:281-287 | from an in-range magnitude a non-negative change never lowers it, a non-positive one never raises it, and a zero change keeps it |
| Values.Trunc | stimulus/cyc03_FBA.py:282 | int() truncates toward zero: for x >= 0 the result is the largest whole number not above x, for x < 0 the smallest not below it |
| Values.PyIndex | stimulus/cyc03_FBA.py:357-359 | an index is valid exactly when -n <= i < n; a valid non-negative index is itself, a negative one counts from the back |
| ChangeFrames.Expand | stimulus/cyc03_FBA.py:214-222 | the change-frame list starts with the start frames in their order, and is non-empty only when there is some start frame |
| ChangeFrames.ExpandLength | stimulus/cyc03_FBA.py:219-222 | every start frame contributes d frames: the list is d times as long as the start-frame list |
| ChangeFrames.ExpandMembership | stimulus/cyc03_FBA.py:214-222 | a frame is a change frame exactly when it lies in [s, s + d) for some start frame s |
| FrameProperties.ChangeFramesPerEvent | stimulus/cyc03_FBA.py:128-222 | at 60 Hz every event contributes 30 change frames |
| FrameLoop.RunFrames | stimulus/cyc03_FBA.py:342-413 | on a trial with one image and one direction per event the loop never raises an IndexError and its result is the loop-free description: it quits on the first frame whose key poll holds the quit key, and otherwise reports the event count (at most the number of events), one change time per event and one orientation per frame |
| FrameLoop.LoopMatchesSpec | stimulus/cyc03_FBA.py:342-413 | from the described state at frame i, the loop ends on the first quit press from i on, or completes with the described counter, change times, responses and orientations |
| FrameLoop.StepMatchesSpec | stimulus/cyc03_FBA.py:342-412 | one pass of the loop body takes the described state of frame i to that of frame i + 1, or stops with a quit on frame i when the quit key is polled |
| FrameLoop.StampMatchesSpec | stimulus/cyc03_FBA.py:350-354 | on a start frame the clock reading goes to the next free change-time slot and the counter advances; elsewhere neither changes |
| FrameLoop.TiltedOrientation | stimulus/cyc03_FBA.py:357-395 | only the selected image turns; clockwise is minus the magnitude, counter-clockwise plus |
| FrameLoop.FirstQuit | stimulus/cyc03_FBA.py:407-408 | the first frame from i on whose key poll holds the quit key, or none when no such frame exists |
| FrameProperties.QuitOnFirstQuitKey | stimulus/cyc03_FBA.py:407-408 | the stimulus period quits exactly when some frame's key poll holds the quit key, and it quits on the first such frame |
| FrameProperties.EventsCounted | stimulus/cyc03_FBA.py:350-354 | the event counter ends at the number of distinct start frames inside the trial, never above the number of events |
| FrameProperties.AllEventsCounted | stimulus/cyc03_FBA.py:350-354 | with distinct start frames that all fall inside the trial, every event is counted |
| FrameProperties.ChangeTimesInFrameOrder | stimulus/cyc03_FBA.py:350-354 | change_times holds, from slot 0, the clock reading of each counted start frame in increasing frame order, and NaN in the slots of events never reached |
| FrameProperties.SortedStartsCountedInOrder | stimulus/cyc03_FBA.py:350-354 | with increasing, non-negative start frames, the frames counted before frame i are the first start frames, and every start not yet counted lies at or after i |
| FrameProperties.ChangeTimesOfSortedStarts | stimulus/cyc03_FBA.py:350-354 | with increasing start frames inside the trial, change time k is the clock reading on start frame k |
| FrameProperties.OrientationRule | stimulus/cyc03_FBA.py:343-401 | off the change frames neither image is tilted; on a change frame with non-negative start frames, event (number of starts up to the frame) - 1 is chosen, and only its image turns, by minus or plus the magnitude according to its direction |
| FrameProperties.TiltFollowsLatestEvent | stimulus/cyc03_FBA.py:357-359 | with increasing, non-negative start frames, the event tilting a change frame is the latest one started, the frame lies in its 30-frame window, and the next event has not started |
| FrameProperties.ResponsesInPressOrder | stimulus/cyc03_FBA.py:410-413 | after the NaN placeholder is popped, the response list is exactly the clock readings after the flip on the frames whose key poll held the response key, in frame order; all are finite; no press leaves it empty |
| Performance.TotalNaN | stimulus/cyc03_FBA.py:460 | the sum of the column is NaN exactly when some entry is NaN |
| Performance.CumulativeNaN | stimulus/cyc03_FBA.py:458-460 | the cumulative performance is NaN exactly when some logged instant performance is NaN |
| Performance.RunningNaN | stimulus/cyc03_FBA.py:463 | the running performance is NaN exactly when one of the last ten entries is NaN, and a column with no NaN gives a finite one |
| Performance.RunningEqualsCumulativeEarly | stimulus/cyc03_FBA.py:460-463 | with at most ten entries, the running performance equals the cumulative one |
| Performance.RunningIsCumulativeOfWindow | stimulus/cyc03_FBA.py:463 | with ten or more entries, the running performance is the mean of the last ten alone |
| Performance.Last | stimulus/cyc03_FBA.py:463 | xs[-10:] is the last ten entries, or all of them when there are fewer |
| Performance.PerformanceWithinPercent | stimulus/cyc03_FBA.py:456-463 | entries within 0..100 give a cumulative and a running performance that are finite and within 0..100 |
| Performance.MeanWithin | stimulus/cyc03_FBA.py:460 | a mean of finite entries within [lo, hi] is finite and within [lo, hi] |
| Performance.MeanOfConstant | stimulus/cyc03_FBA.py:460 | a column holding one value everywhere has that value as its mean |
| Performance.CumulativeIncremental | stimulus/cyc03_FBA.py:460 | appending a finite x to n finite entries moves the mean m to (n·m + x)/(n + 1) |
| Session.FrameRows | stimulus/cyc03_FBA.py:444 | a dict of columns builds a frame exactly when some column is a list and all lists have one length, which is then the number of rows; otherwise it raises, for scalars only or for lists of different lengths |
| Session.WrittenRecordRejected | stimulus/cyc03_FBA.py:430-444 | the record as written, with Frequency_tags a two-element list beside one-element lists, raises for ragged columns and nothing is appended |
| Session.RecordIsOneRow | stimulus/cyc03_FBA.py:430-448 | with both frequencies in one cell the record is one row, and concatenating it appends exactly that row after the rows already saved |
| Session.Append | stimulus/cyc03_FBA.py:444-447 | concatenation raises exactly when the frame cannot be built; otherwise it keeps every saved row and adds as many rows as the frame has, which is one for the record the trial saves |
| Session.PreviousRow | stimulus/cyc03_FBA.py:201-208 | row acc_trial - 2 exists exactly when it is within the file, and then its running performance and tilt magnitude are read |
| Session.Backfill | stimulus/cyc03_FBA.py:466-468 | row acc_trial - 1 receives the cumulative and running performance, and no other row and no other field changes, the instant performance column included |
| Session.SaveRow | stimulus/cyc03_FBA.py:440-468 | the record is appended after the rows read back, which stay unchanged; the instant performance column gains exactly the record's entry; the first trial's row is the record itself, and every later trial's new row is the record with the cumulative and running performance of the whole column |
| Session.EndTrial | stimulus/cyc03_FBA.py:414-469 | after the stimulus period the session goes on exactly when the instant performance is finite and the session saves or this is the first trial; a saving session then saves the record of the trial's number, cue, events, tilt and evaluation, with no means yet; a stopped session keeps its file |
| Session.RunTrial | stimulus/cyc03_FBA.py:194-469 | a trial that stops (quit key or exception) leaves the session file as it was; a trial that goes on keeps the key bindings and, when saving, appends exactly one row after the unchanged earlier rows; without saving only the first trial goes on |
| Session.RunSession | stimulus/cyc03_FBA.py:194-469 | after n trials of a saving session that goes on the file has n rows, and a stopped session has fewer; the test subject's file stays empty and that session stops by its second trial |
| Session.TrialWritesFittingRow | stimulus/cyc03_FBA.py:199-468 | the row a trial writes carries its trial number, shuffled cue, events, tilt from the staircase step on the previous row and a finite instant performance, and from the second trial on the cumulative and running performance of all instant performances so far |
| Session.OngoingTrialSaves | stimulus/cyc03_FBA.py:199-448 | a saving trial that goes on saves a record carrying its trial number, its shuffled cue, its events, the staircase tilt on the rows read back, a finite instant performance and no means yet |
| Session.SavedRowFits | stimulus/cyc03_FBA.py:440-468 | such a record, once saved and back-filled, is a row that fits the rows before it |
| Session.SessionLogConsistent | stimulus/cyc03_FBA.py:194-469 | every row of the session file fits the rows before it in that way |
| Session.LogOnlyGrows | stimulus/cyc03_FBA.py:444-448 | the file after the first j trials is a prefix of the file after all of them: a row never changes once its trial has ended |
| Session.SessionRow | stimulus/cyc03_FBA.py:199-468 | row k of the file holds trial number k + 1, cue k of the shuffled table, the events of input k and a magnitude in 1..99; row 0 has magnitude 50 and NaN cumulative and running performance; every later row has the staircase step from row k - 1's running performance and magnitude and the means of the instant performances of rows 0..k |
| Session.InstantsFinite | stimulus/cyc03_FBA.py:416-439 | every instant performance in the file is finite |
| Session.PerformanceColumns | stimulus/cyc03_FBA.py:440-468 | row 0 keeps NaN cumulative and running performance; every later row has both finite, and up to the tenth row the two are equal |
| Session.PerformanceWithinBounds | stimulus/cyc03_FBA.py:456-468 | when every instant performance lies in 0..100, so do the cumulative and running performance of every row after the first |
| Session.UnknownKeyboardStops | stimulus/cyc03_FBA.py:153-158 | an unrecognised keyboard name stops the session before the first trial, with an empty file |
| Session.StoppedStaysStopped | stimulus/cyc03_FBA.py:194-199 | once the session has stopped, later trials change neither its state nor its file |
| Session.TrialQuits | stimulus/cyc03_FBA.py:407-408 | a trial whose stimulus period polls the quit key stops the session and writes no row |
| Session.QuitWritesNothing | stimulus/cyc03_FBA.py:407-448 | quitting during a trial leaves the file as the earlier trials wrote it |
| Session.SecondTrialReadsNaN | stimulus/cyc03_FBA.py:201-282 | the first row's running performance is NaN, so the second trial's step receives NaN; a step that answers NaN stops the session with int() of NaN and the first row kept |
| Session.TestSubjectStopsAtSecondTrial | stimulus/cyc03_FBA.py:201-205 | the test subject's session always stops, with no file written, and a first trial that goes on is followed by a failed read of the previous row |

## Left out

- Drawing, flipping and flicker gating (`decide_on_show`) are left out. They change what is shown, not what is recorded.
- The inter-trial, cue and post-trial frame periods are left out. They only flip the window.
- Window and monitor set-up, `end_screen` and the refresh-rate test are left out. They are display calls, apart from the undefined `full_screen` at line 113 (see `Session.RunSession` below).
- NetStation triggers (`connect2ECI`) are left out. They are an external device.
- The JSON file is modelled as an in-memory sequence of rows that is read back unchanged. Encoding, paths and file-system errors are not modelled.
- Randomness is not modelled. The permutation, the event start frames and each event's image and direction are inputs; any permutation and any input is allowed.
- The bodies of `gen_events.gen_events2`, `sfc.cal_next_tilt` and `eval_resp` are not part of this model. They are parameters, so no property depends on what they compute.
- `gen_tilted_images.py` and the image files are not modelled. They are not used by the trial logic.
- Infinities are not modelled. Floats are exact reals or NaN.
- Rounding to 0.01 (`round(…, 2)`) and to whole milliseconds (`round(t * 1000)`) is not modelled. The clock readings are taken as whole milliseconds already. The means are exact.
- Performance.Cumulative, Performance.Running: these are exact means. Float round-off and the rounding to two decimals are not modelled.
- Session.RunSession: the NameError at line 113 is not modelled. `full_screen` is assigned only for the test subject (line 108), and the import at line 28 that might define it is commented out. So with the dell monitor every other subject stops at window set-up, before the keyboard check and before any trial. The results about a saving session assume `full_screen` is assigned.
- Session.Append: the contents of the rows of a frame with several rows are not modelled; every such row is given the record's values. Only the one-row frame is reached.
- Session.Backfill: this models an assignment to an existing row. pandas `loc` would enlarge the frame for a missing row label, but the model shows the label is always present.
- The printed progress messages are left out. Only their `int()` conversion at line 421, which can raise, is modelled.
- `Session.EndTrial` treats the check for the test subject's undefined frame (lines 456-458) as unreachable after the failed read at line 203, as `Session.TestSubjectStopsAtSecondTrial` shows. It is kept only to follow the code's order.

## Findings

| source | as written | input that shows it | evidently intended | confidence | as-written member | corrected member |
|---|---|---|---|---|---|---|
| stimulus/cyc03_FBA.py:432 | `'Frequency_tags': [freq1, freq2]` is a two-element list while every other list column has one element, so `pd.DataFrame(trial_dict)` at line 444 raises a ValueError for columns of different lengths | a subject other than "test" with `full_screen` assigned, first trial | one row per trial, with both frequencies stored together in that row's Frequency_tags cell (for example `[[freq1, freq2]]`) | not executed | Session.WrittenRecordRejected | Session.RecordIsOneRow |

The rest of the model uses the corrected record, through `Session.RunTrial`.
