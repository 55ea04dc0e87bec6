/** The drill timer of `MainScreen.kt`: the six-phase dial built from the
    command table, the frame loop that advances the time and finishes at the
    total, the one-vibration-per-tick-mark rule, and the shooting-time setting
    that prunes tick marks falling outside the new range.

    `passedThumbs` survives changes of the running state and is emptied only
    when the timer starts; the played-cue set is keyed on the running state,
    so every change of state discards it. */
module ScreenEngine {
  import opened Numerics
  import opened Commands
  import opened TimerUi
  import opened Collections
  import opened FrameLoop
  import opened PhasePlan
  import PlayButton

  /** The screen's state: the UI record, the tick marks already signalled,
      the played cues and the frame loop. */
  datatype Screen = Screen(ui: UiState, passedThumbs: set<real>, played: set<nat>, loop: Loop)

  /** The tick marks a haptic pass signalled, in order, and the passed set after it. */
  datatype Haptics = Haptics(vibrated: seq<real>, passed: set<real>)

  /** The haptic effect's `forEach` over the tick marks: a mark not yet passed
      whose time has come vibrates and joins the passed set, unless the ringer
      is silent, in which case nothing happens. */
  function HapticPass(time: real, thumbs: seq<real>, passed: set<real>, silent: bool): (r: Haptics)
    ensures forall x :: x in r.vibrated <==> x in thumbs && x !in passed && x <= time && !silent
    ensures Distinct(r.vibrated)
    ensures r.passed == passed + Elems(r.vibrated)
    decreases |thumbs|
  {
    if |thumbs| == 0 then Haptics([], passed)
    else
      var x := thumbs[0];
      if x !in passed && time >= x && !silent then
        var rest := HapticPass(time, thumbs[1..], passed + {x}, silent);
        assert x !in rest.vibrated;
        assert forall y :: y in thumbs ==> y == x || y in thumbs[1..];
        DistinctAppend([x], rest.vibrated);
        Haptics([x] + rest.vibrated, rest.passed)
      else
        assert forall y :: y in thumbs && y != x ==> y in thumbs[1..];
        HapticPass(time, thumbs[1..], passed, silent)
  }

  /** What an event did: the new screen and the tick marks it signalled. */
  datatype Outcome = Outcome(screen: Screen, vibrated: seq<real>)

  function TotalOf(ui: UiState): real
  {
    TotalDuration(ui.shootingDuration)
  }

  /** A frame loop is running. */
  predicate Active(s: Screen) {
    s.ui.timerRunningState == Running && !s.loop.Idle?
  }

  /** `onClickPlayButton`: start, stop, or reset the time and clear the
      played cues. The state always changes, so the played set is discarded
      either way; starting also empties the passed tick marks and launches a
      loop that waits for its first frame. */
  function Click(s: Screen): (r: Screen)
    ensures r.ui == PlayButton.Click(s.ui)
    ensures r.played == {}
    ensures r.ui.timerRunningState == Running <==> Active(r)
    ensures r.ui.timerRunningState == Running ==> r.passedThumbs == {} && r.loop == AwaitFirstFrame
    ensures r.ui.timerRunningState != Running ==> r.passedThumbs == s.passedThumbs
  {
    var ui := PlayButton.Click(s.ui);
    if ui.timerRunningState == Running then Screen(ui, {}, {}, AwaitFirstFrame)
    else Screen(ui, s.passedThumbs, {}, Idle)
  }

  /** One frame at time `frameMs`, the ringer's silence read at that frame.
      The first frame seeds the clock. Later frames advance the time, finish
      at the total with the time set to exactly the total, and run the haptic
      pass at the time the frame settles on. */
  function Step(s: Screen, frameMs: int, silent: bool): (r: Outcome)
    ensures !Active(s) ==> r == Outcome(s, [])
    ensures s.loop == AwaitFirstFrame && Active(s) ==>
              r == Outcome(s.(loop := Ticking(frameMs)), [])
    ensures r.screen.ui.shootingDuration == s.ui.shootingDuration
    ensures r.screen.ui.thumbValues == s.ui.thumbValues
    ensures r.screen.ui.timerRunningState in {s.ui.timerRunningState, Finished}
    ensures r.screen.ui.timerRunningState != s.ui.timerRunningState ==>
              r.screen.ui.currentTime == TotalOf(s.ui) && r.screen.played == {} && !Active(r.screen)
    ensures r.screen.ui.timerRunningState == s.ui.timerRunningState ==> r.screen.played == s.played
    ensures s.ui.currentTime <= TotalOf(s.ui) ==> r.screen.ui.currentTime <= TotalOf(s.ui)
    ensures forall x :: x in r.vibrated <==>
              x in s.ui.thumbValues && x !in s.passedThumbs && x <= r.screen.ui.currentTime &&
              !silent && r.screen.ui.currentTime != s.ui.currentTime
    ensures Distinct(r.vibrated)
    ensures r.screen.passedThumbs == s.passedThumbs + Elems(r.vibrated)
  {
    if !Active(s) then Outcome(s, [])
    else match s.loop
      case AwaitFirstFrame => Outcome(s.(loop := Ticking(frameMs)), [])
      case Ticking(last) =>
        var total := TotalOf(s.ui);
        if s.ui.currentTime >= total then Outcome(s.(loop := Idle), [])
        else
          var t := s.ui.currentTime + Elapsed(last, frameMs);
          if t >= total then
            var ui := SetTimerState(SetCurrentTime(s.ui, total), Finished);
            var h := HapticPass(total, ui.thumbValues, s.passedThumbs, silent);
            Outcome(Screen(ui, h.passed, {}, Idle), h.vibrated)
          else if t == s.ui.currentTime then
            Outcome(s.(loop := Ticking(frameMs)), [])
          else
            var ui := SetCurrentTime(s.ui, t);
            var h := HapticPass(t, ui.thumbValues, s.passedThumbs, silent);
            Outcome(Screen(ui, h.passed, s.played, Ticking(frameMs)), h.vibrated)
  }

  /** The haptic effect rerun because one of its keys changed: a pass over
      the tick marks at the current time, the clock and the loop untouched. */
  function Signal(s: Screen, silent: bool): (r: Outcome)
    ensures r.screen.ui == s.ui && r.screen.played == s.played && r.screen.loop == s.loop
    ensures forall x :: x in r.vibrated <==>
              x in s.ui.thumbValues && x !in s.passedThumbs && x <= s.ui.currentTime && !silent
    ensures Distinct(r.vibrated)
    ensures r.screen.passedThumbs == s.passedThumbs + Elems(r.vibrated)
  {
    var h := HapticPass(s.ui.currentTime, s.ui.thumbValues, s.passedThumbs, silent);
    Outcome(s.(passedThumbs := h.passed), h.vibrated)
  }

  /** A tick-mark edit (lines 389-403: "+", "-", a drag or its rounding) that
      leaves the list `values`, whatever list that is. The list is stored, and
      when it changed the haptic effect keyed on it runs at the current time,
      in any timer state: a mark the clock has already passed vibrates at once. */
  function EditTicks(s: Screen, values: seq<real>, silent: bool): (r: Outcome)
    ensures r.screen.ui == SetThumbValues(s.ui, values)
    ensures r.screen.played == s.played && r.screen.loop == s.loop
    ensures forall x :: x in r.vibrated <==>
              x in values && x !in s.passedThumbs && x <= s.ui.currentTime && !silent &&
              values != s.ui.thumbValues
    ensures Distinct(r.vibrated)
    ensures r.screen.passedThumbs == s.passedThumbs + Elems(r.vibrated)
  {
    var edited := s.(ui := SetThumbValues(s.ui, values));
    if values == s.ui.thumbValues then Outcome(edited, []) else Signal(edited, silent)
  }

  /** A mark added at or behind the current time, say after the timer has
      finished, vibrates as soon as it is added and counts as passed. */
  lemma AddedPassedMarkVibrates(s: Screen, x: real)
    requires x <= s.ui.currentTime && x !in s.passedThumbs
    ensures x in EditTicks(s, s.ui.thumbValues + [x], false).vibrated
    ensures x in EditTicks(s, s.ui.thumbValues + [x], false).screen.passedThumbs
  {
    assert |s.ui.thumbValues + [x]| != |s.ui.thumbValues|;
    assert (s.ui.thumbValues + [x])[|s.ui.thumbValues|] == x;
  }

  /** The shooting-time adjuster together with the haptic effect its prune
      reruns whenever it removes a mark. */
  function AdjustShootingTimeSignalled(s: Screen, values: seq<real>, silent: bool): (r: Outcome)
    ensures r.screen.ui == AdjustShootingTime(s, values).ui
    ensures r.screen.played == s.played && r.screen.loop == s.loop
    ensures forall x :: x in r.vibrated <==>
              x in AdjustShootingTime(s, values).ui.thumbValues && x !in s.passedThumbs &&
              x <= s.ui.currentTime && !silent &&
              AdjustShootingTime(s, values).ui.thumbValues != s.ui.thumbValues
    ensures r.screen.passedThumbs == s.passedThumbs + Elems(r.vibrated)
  {
    var adjusted := AdjustShootingTime(s, values);
    if adjusted.ui.thumbValues == s.ui.thumbValues then Outcome(adjusted, [])
    else Signal(adjusted, silent)
  }

  /** Every mark left by a prune rounds to at least 11, so lies at 10.5 or
      later; a clock short of that, as before any start, hears nothing from
      the haptic pass a prune triggers. */
  lemma PruneSignalsNothingEarly(s: Screen, values: seq<real>, silent: bool)
    requires s.ui.currentTime < 10.5
    ensures AdjustShootingTimeSignalled(s, values, silent).vibrated == []
  {
    var r := AdjustShootingTimeSignalled(s, values, silent);
    var a := AdjustShootingTime(s, values);
    forall x | x in a.ui.thumbValues && a.ui.thumbValues != s.ui.thumbValues
      ensures 10.5 <= x
    {
      assert a.ui.shootingDuration != s.ui.shootingDuration;
      assert InRange(x, RangeFor(a.ui.shootingDuration));
    }
    HeadIsElement(r.vibrated);
  }

  /** A ticking loop whose time is short of the total advances it by the
      frame's elapsed time and moves its clock to the frame. */
  lemma StepAdvancesTime(s: Screen, frameMs: int, silent: bool)
    requires Active(s) && s.loop.Ticking? && s.ui.currentTime < TotalOf(s.ui)
    requires s.ui.currentTime + Elapsed(s.loop.lastFrameMs, frameMs) < TotalOf(s.ui)
    ensures Step(s, frameMs, silent).screen.ui ==
              SetCurrentTime(s.ui, s.ui.currentTime + Elapsed(s.loop.lastFrameMs, frameMs))
    ensures Step(s, frameMs, silent).screen.loop == Ticking(frameMs)
  {
  }

  /** A frame that reaches the total finishes the timer with the time at
      exactly the total, and the loop ends. */
  lemma StepReachingTotalFinishes(s: Screen, frameMs: int, silent: bool)
    requires Active(s) && s.loop.Ticking? && s.ui.currentTime < TotalOf(s.ui)
    requires TotalOf(s.ui) <= s.ui.currentTime + Elapsed(s.loop.lastFrameMs, frameMs)
    ensures Step(s, frameMs, silent).screen.ui ==
              SetTimerState(SetCurrentTime(s.ui, TotalOf(s.ui)), Finished)
    ensures Step(s, frameMs, silent).screen.loop == Idle
  {
  }

  /** A loop whose time already stands at the total ends on its next frame
      without changing anything else. */
  lemma StepAtTotalEnds(s: Screen, frameMs: int, silent: bool)
    requires Active(s) && s.loop.Ticking? && TotalOf(s.ui) <= s.ui.currentTime
    ensures Step(s, frameMs, silent) == Outcome(s.(loop := Idle), [])
  {
  }

  /** A frame and the ringer's silence at that frame. */
  datatype Frame = Frame(ms: int, silent: bool)

  /** A run of frames with no other event in between; the tick marks
      signalled are collected in order. */
  function Run(s: Screen, frames: seq<Frame>): (r: Outcome)
    ensures r.screen.ui.shootingDuration == s.ui.shootingDuration
    ensures r.screen.ui.thumbValues == s.ui.thumbValues
    ensures r.screen.ui.timerRunningState in {s.ui.timerRunningState, Finished}
    decreases |frames|
  {
    if |frames| == 0 then Outcome(s, [])
    else
      var o := Step(s, frames[0].ms, frames[0].silent);
      var rest := Run(o.screen, frames[1..]);
      Outcome(rest.screen, o.vibrated + rest.vibrated)
  }

  /** Over any run of frames a tick mark vibrates at most once, never again
      once passed, and the passed set records exactly what vibrated. */
  lemma {:induction false} RunVibratesOnce(s: Screen, frames: seq<Frame>)
    ensures Distinct(Run(s, frames).vibrated)
    ensures forall x :: x in Run(s, frames).vibrated ==> x !in s.passedThumbs
    ensures Run(s, frames).screen.passedThumbs == s.passedThumbs + Elems(Run(s, frames).vibrated)
    decreases |frames|
  {
    if |frames| > 0 {
      var o := Step(s, frames[0].ms, frames[0].silent);
      var rest := Run(o.screen, frames[1..]);
      RunVibratesOnce(o.screen, frames[1..]);
      DistinctAppend(o.vibrated, rest.vibrated);
      ElemsAppend(o.vibrated, rest.vibrated);
    }
  }

  /** The loop's clock has not passed frame time `ms`. */
  predicate ClockNotAfter(s: Screen, ms: int) {
    s.loop.Ticking? ==> s.loop.lastFrameMs <= ms
  }

  /** A frame that does not come before the last one never moves time back,
      and leaves the clock at or before that frame. */
  lemma StepTimeForward(s: Screen, frameMs: int, silent: bool)
    requires ClockNotAfter(s, frameMs)
    ensures s.ui.currentTime <= Step(s, frameMs, silent).screen.ui.currentTime
    ensures forall ms :: frameMs <= ms ==> ClockNotAfter(Step(s, frameMs, silent).screen, ms)
  {
  }

  /** Frames in time order, none before the loop's clock. */
  predicate FramesInOrder(s: Screen, frames: seq<Frame>) {
    (forall i :: 0 <= i < |frames| ==> ClockNotAfter(s, frames[i].ms)) &&
    (forall i, j :: 0 <= i < j < |frames| ==> frames[i].ms <= frames[j].ms)
  }

  /** After the first of frames in time order, the rest are still in order. */
  lemma FramesInOrderAfterStep(s: Screen, frames: seq<Frame>)
    requires |frames| > 0 && FramesInOrder(s, frames)
    ensures FramesInOrder(Step(s, frames[0].ms, frames[0].silent).screen, frames[1..])
  {
    var o := Step(s, frames[0].ms, frames[0].silent);
    StepTimeForward(s, frames[0].ms, frames[0].silent);
    var rest := frames[1..];
    forall i | 0 <= i < |rest|
      ensures ClockNotAfter(o.screen, rest[i].ms)
    {
      assert frames[0].ms <= frames[i + 1].ms;
    }
  }

  /** Over frames in time order the time never moves back. */
  lemma {:induction false} RunTimeForward(s: Screen, frames: seq<Frame>)
    requires FramesInOrder(s, frames)
    ensures s.ui.currentTime <= Run(s, frames).screen.ui.currentTime
    decreases |frames|
  {
    if |frames| > 0 {
      StepTimeForward(s, frames[0].ms, frames[0].silent);
      FramesInOrderAfterStep(s, frames);
      RunTimeForward(Step(s, frames[0].ms, frames[0].silent).screen, frames[1..]);
    }
  }

  /** With frames in time order, a tick mark vibrates during a run only if
      the run's final time has reached it. */
  lemma {:induction false} RunVibratesOnlyReachedMarks(s: Screen, frames: seq<Frame>)
    requires FramesInOrder(s, frames)
    ensures forall x :: x in Run(s, frames).vibrated ==> x <= Run(s, frames).screen.ui.currentTime
    decreases |frames|
  {
    if |frames| > 0 {
      var o := Step(s, frames[0].ms, frames[0].silent);
      FramesInOrderAfterStep(s, frames);
      RunTimeForward(o.screen, frames[1..]);
      RunVibratesOnlyReachedMarks(o.screen, frames[1..]);
    }
  }

  /** The shooting-time adjuster's callback (lines 404-407) followed by the
      prune effect (lines 229-231). The adjuster is enabled only before the
      start; the new time is the first slider value rounded, or 0 for an empty
      list; a changed time prunes the tick marks to the new range. */
  function AdjustShootingTime(s: Screen, values: seq<real>): (r: Screen)
    ensures s.ui.timerRunningState != NotStarted ==> r == s
    ensures s.ui.timerRunningState == NotStarted ==>
              r.ui.shootingDuration == (if |values| == 0 then 0.0 else RoundHalfUp(values[0]) as real)
    ensures IsWhole(r.ui.shootingDuration) || r == s
    ensures r.ui.shootingDuration != s.ui.shootingDuration ==>
              r.ui.thumbValues == Prune(s.ui.thumbValues, RangeFor(r.ui.shootingDuration))
    ensures r.ui.shootingDuration == s.ui.shootingDuration ==> r == s
    ensures r.ui.timerRunningState == s.ui.timerRunningState
    ensures r.ui.currentTime == s.ui.currentTime && r.passedThumbs == s.passedThumbs
    ensures r.played == s.played && r.loop == s.loop
  {
    if s.ui.timerRunningState != NotStarted then s
    else
      var v := if |values| == 0 then 0.0 else RoundHalfUp(values[0]) as real;
      WholeOfInt(if |values| == 0 then 0 else RoundHalfUp(values[0]));
      if v == s.ui.shootingDuration then s
      else
        var ui := SetShootingTime(s.ui, v);
        s.(ui := SetThumbValues(ui, Prune(ui.thumbValues, RangeFor(v))))
  }

  /** After a change of shooting time every remaining tick mark rounds into
      the new range, and none is new. */
  lemma AdjustedTicksInRange(s: Screen, values: seq<real>)
    requires AdjustShootingTime(s, values).ui.shootingDuration != s.ui.shootingDuration
    ensures forall x :: x in AdjustShootingTime(s, values).ui.thumbValues ==>
              x in s.ui.thumbValues &&
              InRange(x, RangeFor(AdjustShootingTime(s, values).ui.shootingDuration))
  {
  }
}
