/** The play button (`ui/PlayButton.kt`): what a click does to the timer state
    and which icon the button shows. */
module PlayButton {
  import opened TimerUi

  datatype Icon = Play | Stop | Reset

  /** The click handler: start, stop, or reset the time and return to NotStarted. */
  function Click(s: UiState): (r: UiState)
    ensures s.timerRunningState == NotStarted ==>
              r == SetTimerState(s, Running)
    ensures s.timerRunningState == Running ==>
              r == SetTimerState(s, Stopped)
    ensures s.timerRunningState in {Stopped, Finished} ==>
              r == SetTimerState(SetCurrentTime(s, 0.0), NotStarted)
    ensures r.timerRunningState != s.timerRunningState
    ensures r.shootingDuration == s.shootingDuration && r.thumbValues == s.thumbValues
    ensures r.badgesVisible == s.badgesVisible
  {
    match s.timerRunningState
    case NotStarted => SetTimerState(s, Running)
    case Running => SetTimerState(s, Stopped)
    case Stopped => SetTimerState(SetCurrentTime(s, 0.0), NotStarted)
    case Finished => SetTimerState(SetCurrentTime(s, 0.0), NotStarted)
  }

  /** The icon drawn for each state. */
  function IconFor(state: TimerState): (r: Icon)
    ensures r == Play <==> Click(Initial().(timerRunningState := state)).timerRunningState == Running
    ensures r == Reset <==> Click(Initial().(timerRunningState := state)).timerRunningState == NotStarted
  {
    match state
    case NotStarted => Play
    case Running => Stop
    case Stopped => Reset
    case Finished => Reset
  }

  /** The icon always announces what the next click does: Play starts the timer,
      Stop stops it keeping the time, Reset clears the time back to NotStarted. */
  lemma IconMatchesClick(s: UiState)
    ensures IconFor(s.timerRunningState) == Play <==>
              Click(s).timerRunningState == Running
    ensures IconFor(s.timerRunningState) == Stop <==>
              Click(s).timerRunningState == Stopped && Click(s).currentTime == s.currentTime
    ensures IconFor(s.timerRunningState) == Reset <==>
              Click(s).timerRunningState == NotStarted && Click(s).currentTime == 0.0
  {
  }

  /** Start, stop and reset: three clicks from NotStarted come back to NotStarted
      at time zero with every other field unchanged. */
  lemma ThreeClicksReturn(s: UiState)
    requires s.timerRunningState == NotStarted
    ensures Click(Click(Click(s))) == SetCurrentTime(s, 0.0)
  {
  }
}
