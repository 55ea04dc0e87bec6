/** The timer's UI state record (`ui/TimerUiState.kt`) and the view model's
    single-field setters over it (`ui/TimerViewModel.kt`). */
module TimerUi {

  /** The four states of the timer. */
  datatype TimerState = NotStarted | Running | Stopped | Finished

  /** The state record. `thumbValues` holds the tick marks the view model keeps
      beside the four declared fields. */
  datatype UiState = UiState(
    shootingDuration: real,
    badgesVisible: bool,
    timerRunningState: TimerState,
    currentTime: real,
    thumbValues: seq<real>)

  /** Every timer state, once each. */
  function AllTimerStates(): (r: seq<TimerState>)
    ensures |r| == 4
    ensures forall i, j :: 0 <= i < j < |r| ==> r[i] != r[j]
    ensures forall t: TimerState :: t in r
  {
    var r := [NotStarted, Running, Stopped, Finished];
    assert forall t: TimerState :: t in r by {
      forall t: TimerState
        ensures t in r
      {
        assert t == r[0] || t == r[1] || t == r[2] || t == r[3];
      }
    }
    r
  }

  /** The record built with every default, which is also the view model's initial state. */
  function Initial(): (r: UiState)
    ensures r.shootingDuration == 5.0
    ensures !r.badgesVisible
    ensures r.timerRunningState == NotStarted
    ensures r.currentTime == 0.0
    ensures r.thumbValues == []
  {
    UiState(5.0, false, NotStarted, 0.0, [])
  }

  function SetShootingTime(s: UiState, shootingDuration: real): (r: UiState)
    ensures r.shootingDuration == shootingDuration
    ensures r.badgesVisible == s.badgesVisible
    ensures r.timerRunningState == s.timerRunningState
    ensures r.currentTime == s.currentTime
    ensures r.thumbValues == s.thumbValues
  {
    s.(shootingDuration := shootingDuration)
  }

  function SetBadgesVisible(s: UiState, badgesVisible: bool): (r: UiState)
    ensures r.badgesVisible == badgesVisible
    ensures r.shootingDuration == s.shootingDuration
    ensures r.timerRunningState == s.timerRunningState
    ensures r.currentTime == s.currentTime
    ensures r.thumbValues == s.thumbValues
  {
    s.(badgesVisible := badgesVisible)
  }

  function SetTimerState(s: UiState, timerState: TimerState): (r: UiState)
    ensures r.timerRunningState == timerState
    ensures r.shootingDuration == s.shootingDuration
    ensures r.badgesVisible == s.badgesVisible
    ensures r.currentTime == s.currentTime
    ensures r.thumbValues == s.thumbValues
  {
    s.(timerRunningState := timerState)
  }

  function SetCurrentTime(s: UiState, currentTime: real): (r: UiState)
    ensures r.currentTime == currentTime
    ensures r.shootingDuration == s.shootingDuration
    ensures r.badgesVisible == s.badgesVisible
    ensures r.timerRunningState == s.timerRunningState
    ensures r.thumbValues == s.thumbValues
  {
    s.(currentTime := currentTime)
  }

  function SetThumbValues(s: UiState, thumbValues: seq<real>): (r: UiState)
    ensures r.thumbValues == thumbValues
    ensures r.shootingDuration == s.shootingDuration
    ensures r.badgesVisible == s.badgesVisible
    ensures r.timerRunningState == s.timerRunningState
    ensures r.currentTime == s.currentTime
  {
    s.(thumbValues := thumbValues)
  }
}
