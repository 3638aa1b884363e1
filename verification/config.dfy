/** The experiment's fixed parameters and its keyboard configuration. */
module Config {
  import opened Values

  const RefreshRate: int := 60                           // display frames per second
  const TrialDuration: int := 7 * RefreshRate            // frames in a trial's stimulus period
  const TiltDurationFrames: int := Trunc(RefreshRate as real / 2.0)  // frames one tilt is held

  const NConditions: int := 2 * 3                        // 2 cued images x 3 tilt slots
  const RepPerCondition: int := 15
  const NTrials: int := NConditions * RepPerCondition

  const GoalPerformance: int := 80                       // target accuracy of the staircase, in %
  const SeedTiltMagnitude: int := 50                     // first trial's tilt, tenths of a degree
  const MinTiltMagnitude: int := 1
  const MaxTiltMagnitude: int := 99
  const RunningWindow: nat := 10                         // trials averaged by the running performance

  /** The subject id for which nothing is written to the session file. */
  const TestSubject: string := "test"

  /** The two keys the frame loop listens to. */
  datatype CommandKeys = CommandKeys(quitKey: string, responseKey: string)

  /** The key bindings of a named keyboard; any other name is an error raised
      before the first trial. */
  function KeyBindings(keyboard: string): (r: Result<CommandKeys>)
    ensures r.Ok? <==> keyboard == "numpad" || keyboard == "mac"
    ensures r.Err? ==> r.error == UnknownKeyboard(keyboard)
    ensures r.Ok? ==> r.value.quitKey != r.value.responseKey
    ensures keyboard == "numpad" ==> r == Ok(CommandKeys("backspace", "num_0"))
    ensures keyboard == "mac" ==> r == Ok(CommandKeys("escape", "space"))
  {
    if keyboard == "numpad" then Ok(CommandKeys("backspace", "num_0"))
    else if keyboard == "mac" then Ok(CommandKeys("escape", "space"))
    else Err(UnknownKeyboard(keyboard))
  }

  /** The derived frame counts at the 60 Hz refresh rate. */
  lemma FrameCounts()
    ensures TrialDuration == 420
    ensures TiltDurationFrames == 30
    ensures NTrials == 90
  {
    assert RefreshRate as real / 2.0 == 30.0;
  }
}
