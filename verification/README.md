# FieldShootingTimer: a Dafny model of the timer's core

FieldShootingTimer is an Android app that runs a field-shooting drill. It
announces each command of the drill with an audio clip. It draws the drill as
a dial of coloured segments with a moving hand. It lets the shooter place
tick marks in the firing window, and the phone vibrates as each one passes.

This project models the plain logic inside the app's Compose screens, using
exact reals for Kotlin `Float`:

- **Command table and derived plan.** The nine drill commands, and the tables
  the main screen builds from them: the segment durations, the audio-cue
  schedule, the range the tick marks may occupy, the pruning of tick marks
  when the shooting time changes, and which command is highlighted at a given
  time. Modules `Commands` and `PhasePlan`.
- **Timer state machines.** The UI state record and its setters (`TimerUi`).
  The play button's transitions and icon (`PlayButton`). The two frame-driven
  timer screens:
  - `CueEngine` follows `MainActivity.kt`: five segments, and audio cues that
    each play at most once per running episode.
  - `ScreenEngine` follows `MainScreen.kt`: the six-phase dial, and haptic tick
    marks that each vibrate at most once. The haptic pass runs on every frame
    that moves the time and on every change of the tick marks.

  A Compose effect that is keyed on the running state is modelled as an
  explicit transition: a click or a finishing step discards the loop and the
  played set. The frame clock is an input. The first frame only seeds the
  clock (`FrameLoop`).
- **Dial geometry.** Module `DialGeometry` covers:
  - scaling segment durations into sweep angles that fill `360 - gap`;
  - boundary, centre and segment-end marker angles under Kotlin's truncated
    `% 360`;
  - the tick-to-angle maps and the tick labels;
  - contiguous arcs, colour fallback, the border path, and visible badges.

  Module `DialHand` covers the hand: clamped in the preview dials, unclamped
  in the two `DialHand` composables.
- **Badge separation.** Module `BadgeSeparation` models the greedy forward
  pass that moves segment badges apart, exactly as written. `minSep`, the
  angle two badges subtend, is a parameter. Beside it sits a corrected pass;
  see "Findings".
- **Tick slider.** Module `ThumbSlider` covers the value/offset maps of the
  multi-thumb slider, a drag event and a whole drag gesture, and the "+" and
  "-" buttons.

Kotlin's conversions are written out in `Numerics`:

- `toInt` truncates toward zero (`Trunc`);
- `roundToInt` rounds half up (`RoundHalfUp`);
- `% 360f` keeps the dividend's sign (`Rem360`);
- `coerceIn` clamps (`Clamp`).

An exception becomes an `Err` of `Result`: `require` gives `IllegalArgument`,
and `first()` on an empty list gives `NoSuchElement`.

Where the repository holds several versions of one function, each is modelled
from its own file. Copies that compute the same thing share one definition.
The centre and boundary helpers of `ui/DecoratedDial.kt` and
`ui/DialWithBadges.kt` are one example. The clamped hands of
`CenteredSemiCircleWithMarkers.kt` and `DialWithHand.kt` are another: they
differ only in the name of the total (`totalTime` and `totalSeconds`).

## Model

| member | source | states |
|---|---|---|
| Numerics.Trunc | app/src/main/java/se/kjellstrand/fieldshootingtimer/ui/DialWithBadges.kt:130 | `toInt` truncates toward zero: the integer lies within one of `x`, on the same side of zero, never farther from zero than `x` |
| Numerics.RoundHalfUp | app/src/main/java/se/kjellstrand/fieldshootingtimer/ui/ShootTimeSlider.kt:48 | `roundToInt` gives an integer within half a unit of `x`, ties going up |
| Numerics.Rem360 | app/src/main/java/se/kjellstrand/fieldshootingtimer/ui/DecoratedDial.kt:384 | `% 360` lies in [0, 360) for a non-negative dividend and in (-360, 0] for a negative one, and denotes the same direction as the dividend |
| Numerics.Clamp | app/src/main/java/se/kjellstrand/fieldshootingtimer/ui/MultiThumbSlider.kt:106-108 | `coerceIn` returns a value inside the bounds: the input when it is inside, otherwise the bound it crossed |
| Commands.Entries | app/src/main/java/se/kjellstrand/fieldshootingtimer/ui/Command.kt:10-19 | the enum has nine entries and entry `i` has ordinal `i` |
| Commands.EveryCommandListed | app/src/main/java/se/kjellstrand/fieldshootingtimer/ui/Command.kt:10-19 | every command appears in the entries, at the index of its ordinal |
| Commands.IsUntimed | app/src/main/java/se/kjellstrand/fieldshootingtimer/ui/Command.kt:11-19 | a command has duration -1 exactly when it has no audio, and exactly when it is Load, AllReady or Mark |
| Commands.TimedOfAppend | app/src/main/java/se/kjellstrand/fieldshootingtimer/MainScreen.kt:152 | the duration filter over a concatenation is the concatenation of the filtered parts |
| Commands.Timed | app/src/main/java/se/kjellstrand/fieldshootingtimer/ui/Command.kt:13-18 | the commands with a non-negative duration are the six consecutive entries with ordinals 2 to 7, in order |
| Commands.OnlyFireIsPlaceholder | app/src/main/java/se/kjellstrand/fieldshootingtimer/ui/Command.kt:13-18 | Fire is the only timed command whose table duration is 0 |
| Commands.FixedTimedDurations | app/src/main/java/se/kjellstrand/fieldshootingtimer/ui/Command.kt:13-18 | the fixed durations of the timed commands add up to 19 seconds |
| TimerUi.AllTimerStates | app/src/main/java/se/kjellstrand/fieldshootingtimer/ui/TimerUiState.kt:10-15 | there are exactly four timer states, all distinct |
| TimerUi.Initial | app/src/main/java/se/kjellstrand/fieldshootingtimer/ui/TimerUiState.kt:3-8 | the default record: shooting time 5, badges hidden, NotStarted, time 0, no tick marks |
| TimerUi.SetShootingTime | app/src/main/java/se/kjellstrand/fieldshootingtimer/ui/TimerViewModel.kt:26-30 | sets the shooting duration and leaves every other field as it was |
| TimerUi.SetBadgesVisible | app/src/main/java/se/kjellstrand/fieldshootingtimer/ui/TimerViewModel.kt:32-36 | sets badge visibility and leaves every other field as it was |
| TimerUi.SetTimerState | app/src/main/java/se/kjellstrand/fieldshootingtimer/ui/TimerViewModel.kt:38-42 | sets the running state and leaves every other field as it was |
| TimerUi.SetCurrentTime | app/src/main/java/se/kjellstrand/fieldshootingtimer/ui/TimerViewModel.kt:44-48 | sets the current time and leaves every other field as it was |
| TimerUi.SetThumbValues | app/src/main/java/se/kjellstrand/fieldshootingtimer/ui/TimerViewModel.kt:50-55 | replaces the whole tick-mark list and leaves every other field as it was |
| PlayButton.Click | app/src/main/java/se/kjellstrand/fieldshootingtimer/ui/PlayButton.kt:38-52 | NotStarted goes to Running and Running to Stopped, keeping the time; Stopped and Finished reset the time to 0 and go to NotStarted; the state always changes and the other fields are kept |
| PlayButton.IconFor | app/src/main/java/se/kjellstrand/fieldshootingtimer/ui/PlayButton.kt:61-86 | the icon is Play exactly when a click starts the timer and Reset exactly when a click returns it to NotStarted; `PlayButton.IconMatchesClick` states the full match |
| PlayButton.IconMatchesClick | app/src/main/java/se/kjellstrand/fieldshootingtimer/ui/PlayButton.kt:61-86 | the icon is Play exactly when a click starts the timer, Stop exactly when it stops it with the time kept, and Reset exactly when it clears the time back to NotStarted |
| PlayButton.ThreeClicksReturn | app/src/main/java/se/kjellstrand/fieldshootingtimer/ui/PlayButton.kt:38-52 | start, stop, reset brings a NotStarted state back to itself at time 0 |
| FrameLoop.Elapsed | app/src/main/java/se/kjellstrand/fieldshootingtimer/MainScreen.kt:210 | the step is the millisecond difference in seconds, not negative for frames in order |
| PhasePlan.SegmentDuration | app/src/main/java/se/kjellstrand/fieldshootingtimer/MainScreen.kt:152-157 | a timed command other than Fire lasts a whole, non-negative number of seconds; for a non-negative shooting time every timed command lasts a non-negative time |
| PhasePlan.DurationsOf | app/src/main/java/se/kjellstrand/fieldshootingtimer/MainScreen.kt:152-157 | one duration per command: the shooting time for Fire, the table duration otherwise |
| PhasePlan.SegmentDurations | app/src/main/java/se/kjellstrand/fieldshootingtimer/MainScreen.kt:151-158 | one segment per timed command, with durations 7, 3, s, 3, 4, 2 |
| PhasePlan.TotalDuration | app/src/main/java/se/kjellstrand/fieldshootingtimer/MainScreen.kt:184 | the total is 19 + s |
| PhasePlan.TotalIsTableAndShootingTime | app/src/main/java/se/kjellstrand/fieldshootingtimer/MainScreen.kt:151-184 | the total is the sum of the table's fixed durations plus the shooting time |
| PhasePlan.AudioCues | app/src/main/java/se/kjellstrand/fieldshootingtimer/MainScreen.kt:161-182 | six cues, one per timed command in table order, due at 0, 7, 10, 10+T, 13+T and 17+T, where T is the truncated shooting time |
| PhasePlan.CuesStartSegments | app/src/main/java/se/kjellstrand/fieldshootingtimer/MainScreen.kt:161-182 | cue `i` is due where segment `i` starts on the dial drawn for the truncated shooting time |
| PhasePlan.CueScheduleOrdered | app/src/main/java/se/kjellstrand/fieldshootingtimer/MainScreen.kt:161-184 | for s >= 0 the cues are in time order and every cue is due before the total |
| PhasePlan.RangeOffset | app/src/main/java/se/kjellstrand/fieldshootingtimer/MainScreen.kt:186 | the offset is the time at which Fire begins on the dial |
| PhasePlan.RangeFor | app/src/main/java/se/kjellstrand/fieldshootingtimer/MainScreen.kt:186-193 | the tick range is 11 to trunc(s + 12) |
| PhasePlan.RangeWithinFireAndCeaseFire | app/src/main/java/se/kjellstrand/fieldshootingtimer/MainScreen.kt:186-193 | every whole second of the range lies strictly inside the Fire and cease-fire segments |
| PhasePlan.Prune | app/src/main/java/se/kjellstrand/fieldshootingtimer/MainScreen.kt:229-231 | a tick mark survives exactly when it is in the list and its rounded value is in the range |
| PhasePlan.PruneAppend | app/src/main/java/se/kjellstrand/fieldshootingtimer/MainScreen.kt:230 | pruning distributes over concatenation, so the kept marks keep their order |
| PhasePlan.PruneOne | app/src/main/java/se/kjellstrand/fieldshootingtimer/MainScreen.kt:230 | a single mark is kept exactly when it rounds into the range |
| PhasePlan.PruneIdempotent | app/src/main/java/se/kjellstrand/fieldshootingtimer/MainScreen.kt:229-231 | pruning again with the same range removes nothing more |
| PhasePlan.HighlightFrom | app/src/main/java/se/kjellstrand/fieldshootingtimer/MainScreen.kt:431-437 | the loop returns the first phase not yet ended, counted from TenSecondsLeft, or Visitation once all have ended |
| PhasePlan.HighlightedIndex | app/src/main/java/se/kjellstrand/fieldshootingtimer/MainScreen.kt:430-439 | the index is 2 plus the first phase whose end is after `t`, or 7 when every phase has ended |
| PhasePlan.HighlightedIsTimed | app/src/main/java/se/kjellstrand/fieldshootingtimer/MainScreen.kt:430-439 | with at most six phases the index is in [2, 7] and names a timed command |
| PhasePlan.FirstOpenPhaseUnique | app/src/main/java/se/kjellstrand/fieldshootingtimer/MainScreen.kt:430-439 | the first phase still open at a time is unique |
| PhasePlan.HighlightMonotone | app/src/main/java/se/kjellstrand/fieldshootingtimer/MainScreen.kt:430-439 | a later time never highlights an earlier command |
| CueEngine.Segments | app/src/main/java/se/kjellstrand/fieldshootingtimer/MainActivity.kt:78-81 | five segments, each a whole number of seconds, all non-negative for a non-negative shooting time |
| CueEngine.Total | app/src/main/java/se/kjellstrand/fieldshootingtimer/MainActivity.kt:78-81 | the total of the five segments is 14 + trunc(s) |
| CueEngine.StartTimesFrom | app/src/main/java/se/kjellstrand/fieldshootingtimer/MainActivity.kt:89-92 | the loop records, for each remaining segment, the sum of all segments before it |
| CueEngine.StartTimes | app/src/main/java/se/kjellstrand/fieldshootingtimer/MainActivity.kt:86-94 | one start time per segment, each the sum of the segments before it |
| CueEngine.StartTimesAscending | app/src/main/java/se/kjellstrand/fieldshootingtimer/MainActivity.kt:86-94 | with non-negative segments the first start is 0, the starts never decrease, and all lie within the total |
| CueEngine.Cues | app/src/main/java/se/kjellstrand/fieldshootingtimer/MainActivity.kt:95-103 | cue `k` plays clip `k` at the start of segment `k` |
| CueEngine.CueTimes | app/src/main/java/se/kjellstrand/fieldshootingtimer/MainActivity.kt:78-103 | for s >= 0 the cues are due at 0, 7, 10, 10+T and 13+T, all before the total |
| CueEngine.FireFrom | app/src/main/java/se/kjellstrand/fieldshootingtimer/MainActivity.kt:120-127 | a cue plays exactly when it is due and not yet played; the played cues come in index order and are added to the played set |
| CueEngine.FireDue | app/src/main/java/se/kjellstrand/fieldshootingtimer/MainActivity.kt:107-112 | a pass over all cues plays each due, unplayed cue once, in ascending index order, and records it |
| CueEngine.Click | app/src/main/java/se/kjellstrand/fieldshootingtimer/MainActivity.kt:324-339 | the button transition; starting plays every cue already due and awaits a first frame; any other transition plays nothing and empties the played set |
| CueEngine.Step | app/src/main/java/se/kjellstrand/fieldshootingtimer/MainActivity.kt:114-135 | the first frame seeds the clock; a later frame short of the total sets the time to the old time plus the elapsed seconds and moves the clock to that frame; such a frame plays, in ascending index order, exactly the cues that are due at the advanced time and not played before, and on reaching the total sets the time to exactly the total and finishes; the time never passes the total; the other fields are kept |
| CueEngine.Run | app/src/main/java/se/kjellstrand/fieldshootingtimer/MainActivity.kt:114-135 | a run of frames keeps the shooting time, tick marks and badge visibility and can change the state only to Finished; its cue behaviour is stated by `CueEngine.RunPlaysEachCueOnce`, `CueEngine.PassiveRun`, `CueEngine.RunTimeForward` and `CueEngine.RunPlaysOnlyReachedCues` |
| CueEngine.SeededFirstDelta | app/src/main/java/se/kjellstrand/fieldshootingtimer/MainActivity.kt:114-119 | after a start the first time step is the gap between the first two frames |
| CueEngine.ReachingTotalFinishes | app/src/main/java/se/kjellstrand/fieldshootingtimer/MainActivity.kt:129-133 | a step that reaches the total leaves state Finished with the time at exactly the total |
| CueEngine.ClickPlaysDueCues | app/src/main/java/se/kjellstrand/fieldshootingtimer/MainActivity.kt:105-112 | after a start no due cue is unplayed |
| CueEngine.StepPlaysDueCues | app/src/main/java/se/kjellstrand/fieldshootingtimer/MainActivity.kt:116-127 | a step keeps every due cue played, so no cue is skipped however large the step |
| CueEngine.FinishingStepPlaysTheRest | app/src/main/java/se/kjellstrand/fieldshootingtimer/MainActivity.kt:119-133 | the step that finishes plays every cue not played before |
| CueEngine.PassiveRun | app/src/main/java/se/kjellstrand/fieldshootingtimer/MainActivity.kt:105-116 | a screen that is not running ignores frames |
| CueEngine.RunPlaysEachCueOnce | app/src/main/java/se/kjellstrand/fieldshootingtimer/MainActivity.kt:105-135 | over any run of frames no cue plays twice or again after being played, and while running the played set is exactly what has played |
| CueEngine.StepTimeForward | app/src/main/java/se/kjellstrand/fieldshootingtimer/MainActivity.kt:116-134 | a frame that is not earlier than the last never moves time back, and leaves the clock at or before that frame |
| CueEngine.RunTimeForward | app/src/main/java/se/kjellstrand/fieldshootingtimer/MainActivity.kt:116-134 | over frames in time order the time never moves back |
| CueEngine.StepPlaysOnlyReachedCues | app/src/main/java/se/kjellstrand/fieldshootingtimer/MainActivity.kt:120-133 | every cue a frame plays is due by the time the frame leaves, the advanced time or the total |
| CueEngine.RunPlaysOnlyReachedCues | app/src/main/java/se/kjellstrand/fieldshootingtimer/MainActivity.kt:116-134 | over frames in time order only cues that the final time has reached play |
| CueEngine.SlideShootingTime | app/src/main/java/se/kjellstrand/fieldshootingtimer/MainActivity.kt:273-287 | the slider acts only before the start; it stores the value and clears the played cues |
| CueEngine.SlideShootingTimeRounded | app/src/main/java/se/kjellstrand/fieldshootingtimer/ui/ShootTimeSlider.kt:44-59 | the slider acts only before the start; it stores the value rounded to a whole number in 1..27 and clears the played cues |
| CueEngine.RoundedTotal | app/src/main/java/se/kjellstrand/fieldshootingtimer/ui/ShootTimeSlider.kt:48 | a rounded shooting time loses nothing to truncation, so the total is exactly 14 seconds more |
| ScreenEngine.HapticPass | app/src/main/java/se/kjellstrand/fieldshootingtimer/MainScreen.kt:115-139 | a mark vibrates exactly when it is reached, not yet passed and the ringer is not silent; each vibrates once and joins the passed set |
| ScreenEngine.Click | app/src/main/java/se/kjellstrand/fieldshootingtimer/MainScreen.kt:239-255 | the button transition empties the played cues; starting empties the passed marks and awaits a first frame; other transitions keep the passed marks |
| ScreenEngine.Step | app/src/main/java/se/kjellstrand/fieldshootingtimer/MainScreen.kt:206-225 | the first frame seeds the clock; later frames keep the shooting time and tick marks, change the state only to Finished with the time at the total, and vibrate exactly the reached, unpassed marks when the time moved and the ringer is on; the time never passes the total |
| ScreenEngine.StepAdvancesTime | app/src/main/java/se/kjellstrand/fieldshootingtimer/MainScreen.kt:208-224 | a frame that does not reach the total sets the time to the old time plus the frame's elapsed seconds and moves the loop's clock to the frame |
| ScreenEngine.StepReachingTotalFinishes | app/src/main/java/se/kjellstrand/fieldshootingtimer/MainScreen.kt:219-222 | a frame that reaches the total sets the time to exactly the total, the state to Finished, and ends the loop |
| ScreenEngine.StepAtTotalEnds | app/src/main/java/se/kjellstrand/fieldshootingtimer/MainScreen.kt:208 | a loop whose time already stands at the total ends on its next frame and changes nothing else |
| ScreenEngine.Run | app/src/main/java/se/kjellstrand/fieldshootingtimer/MainScreen.kt:206-225 | a run of frames keeps the shooting time and the tick marks and can change the state only to Finished; its behaviour is stated by `ScreenEngine.RunVibratesOnce`, `ScreenEngine.RunTimeForward` and `ScreenEngine.RunVibratesOnlyReachedMarks` |
| ScreenEngine.RunVibratesOnce | app/src/main/java/se/kjellstrand/fieldshootingtimer/MainScreen.kt:115-139 | over any run a mark vibrates at most once and never once passed, and the passed set records exactly what vibrated |
| ScreenEngine.StepTimeForward | app/src/main/java/se/kjellstrand/fieldshootingtimer/MainScreen.kt:208-224 | a frame that is not earlier than the last never moves time back |
| ScreenEngine.RunTimeForward | app/src/main/java/se/kjellstrand/fieldshootingtimer/MainScreen.kt:208-225 | over frames in time order the time never moves back |
| ScreenEngine.RunVibratesOnlyReachedMarks | app/src/main/java/se/kjellstrand/fieldshootingtimer/MainScreen.kt:115-139 | over frames in time order only marks that the final time has reached vibrate |
| ScreenEngine.AdjustShootingTime | app/src/main/java/se/kjellstrand/fieldshootingtimer/MainScreen.kt:404-408 | the adjuster acts only before the start; the new time is the first value rounded, or 0 for an empty list; a changed time prunes the marks to the new range and nothing else changes |
| ScreenEngine.AdjustedTicksInRange | app/src/main/java/se/kjellstrand/fieldshootingtimer/MainScreen.kt:229-231 | after a change every remaining mark was already there and rounds into the new range |
| ScreenEngine.Signal | app/src/main/java/se/kjellstrand/fieldshootingtimer/MainScreen.kt:115-139 | the haptic effect rerun outside a frame: it vibrates exactly the reached, unpassed marks when the ringer is on, adds them to the passed set, and changes nothing else |
| ScreenEngine.EditTicks | app/src/main/java/se/kjellstrand/fieldshootingtimer/MainScreen.kt:389-403 | a tick edit stores the new list; when the list changed, every mark in it that the time has reached and that has not passed vibrates at once, in any timer state |
| ScreenEngine.AddedPassedMarkVibrates | app/src/main/java/se/kjellstrand/fieldshootingtimer/MainScreen.kt:115-118 | a mark added at or behind the current time, as after the timer finished, vibrates at once and counts as passed |
| ScreenEngine.AdjustShootingTimeSignalled | app/src/main/java/se/kjellstrand/fieldshootingtimer/MainScreen.kt:229-231 | the adjuster's result, and when its prune changed the tick marks the haptic pass over the pruned marks at the current time |
| ScreenEngine.PruneSignalsNothingEarly | app/src/main/java/se/kjellstrand/fieldshootingtimer/MainScreen.kt:186-193 | marks kept by a prune lie at 10.5 or later, so a clock short of that hears no vibration from a prune |
| DialGeometry.StartAngle | app/src/main/java/se/kjellstrand/fieldshootingtimer/ui/DecoratedDial.kt:311-312 | the dial starts at 90 + gap/2, so the gap is centred on 90 degrees and the dial's middle is at 270 |
| DialGeometry.Sweeps | app/src/main/java/se/kjellstrand/fieldshootingtimer/ui/DecoratedDial.kt:41-44 | one sweep per segment |
| DialGeometry.SweepsFillAvailable | app/src/main/java/se/kjellstrand/fieldshootingtimer/ui/DialWithBadges.kt:42-44 | the sweeps add up to the available angle passed in, whatever the gap |
| DialGeometry.SweepPrefix | app/src/main/java/se/kjellstrand/fieldshootingtimer/ui/DecoratedDial.kt:41-44 | the sweeps before segment `i` are the time before it times the degrees per second |
| DialGeometry.EverySecondTicks | app/src/main/java/se/kjellstrand/fieldshootingtimer/ui/DecoratedDial.kt:45-46 | tick `i` is `i + 1`, and there are trunc(sum) of them |
| DialGeometry.EverySecondTicksAreWholeSeconds | app/src/main/java/se/kjellstrand/fieldshootingtimer/ui/DecoratedDial.kt:45-46 | a value is a tick exactly when it is a whole number from 1 to trunc(sum) |
| DialGeometry.TickAngle | app/src/main/java/se/kjellstrand/fieldshootingtimer/ui/DecoratedDial.kt:277-279 | tick 0 lies at the dial's start and tick `ticksMax` at its end; `DialGeometry.TickAngleEnds` adds that the map is strictly increasing |
| DialGeometry.TickAngleEnds | app/src/main/java/se/kjellstrand/fieldshootingtimer/ui/DecoratedDial.kt:277-279 | tick 0 is at the dial start, tick `ticksMax` at the dial end, and the map is strictly increasing |
| DialGeometry.TickAngles | app/src/main/java/se/kjellstrand/fieldshootingtimer/ui/DecoratedDial.kt:140-142 | every tick is mapped, in order, by the tick map |
| DialGeometry.IntTickAngles | app/src/main/java/se/kjellstrand/fieldshootingtimer/ui/DialWithBadges.kt:201-203 | integer tick `k` lies at start + k / trunc(sum) of the available angle |
| DialGeometry.TickLabel | app/src/main/java/se/kjellstrand/fieldshootingtimer/ui/DecoratedDial.kt:148-150 | the label is the tick less the 10 seconds before Fire, rounded |
| DialGeometry.BoundariesFrom | app/src/main/java/se/kjellstrand/fieldshootingtimer/ui/DialWithBadges.kt:285-303 | each recorded boundary is the start plus the sweeps before it, reduced `% 360` |
| DialGeometry.Boundaries | app/src/main/java/se/kjellstrand/fieldshootingtimer/ui/DecoratedDial.kt:376-391 | n + 1 boundaries; boundary `i` is (start + sum of sweeps before `i`) % 360 |
| DialGeometry.CentersFrom | app/src/main/java/se/kjellstrand/fieldshootingtimer/ui/DialWithBadges.kt:224-238 | each recorded centre is the start plus the sweeps before it plus half its own, reduced `% 360` |
| DialGeometry.Centers | app/src/main/java/se/kjellstrand/fieldshootingtimer/ui/DecoratedDial.kt:308-321 | one centre per segment; centre `i` is, reduced into a turn, the dial start plus the sweeps before `i` plus half of sweep `i` |
| DialGeometry.CentersAreMidpoints | app/src/main/java/se/kjellstrand/fieldshootingtimer/ui/DecoratedDial.kt:308-321 | before reduction each centre is the midpoint of its segment's two boundaries |
| DialGeometry.AnglesWithinTurn | app/src/main/java/se/kjellstrand/fieldshootingtimer/ui/DecoratedDial.kt:379-388 | for 0 <= gap < 360 and non-negative sweeps every boundary and centre lies in [0, 360) |
| DialGeometry.EndMarkersFrom | app/src/main/java/se/kjellstrand/fieldshootingtimer/SegmentedSemiCircleWithMarkers.kt:64-67 | each recorded marker is the start plus the sweeps up to and including its own, reduced `% 360` |
| DialGeometry.EndMarkers | app/src/main/java/se/kjellstrand/fieldshootingtimer/SegmentedSemiCircleWithMarkers.kt:60-67 | exactly one marker per sweep; marker `i` is, reduced into a turn, the dial start plus the sweeps up to and including `i` |
| DialGeometry.EndMarkersAreSegmentEnds | app/src/main/java/se/kjellstrand/fieldshootingtimer/SegmentedSemiCircleWithMarkers.kt:64-67 | the markers are the segment boundaries without the first: each marks its segment's end, not its centre |
| DialGeometry.LastMarkerClosesDial | app/src/main/java/se/kjellstrand/fieldshootingtimer/SegmentedSemiCircleWithMarkers.kt:110-121 | with the preview's scaling of positive times the last marker is at (270 + available/2) % 360 |
| DialGeometry.ColorAt | app/src/main/java/se/kjellstrand/fieldshootingtimer/SegmentedSemiCircle.kt:55 | colour `i` when there is one, gray otherwise |
| DialGeometry.ArcsFrom | app/src/main/java/se/kjellstrand/fieldshootingtimer/SegmentedSemiCircle.kt:54-66 | arc `k` starts at the start plus the sweeps before it, spans its sweep and takes its colour |
| DialGeometry.Arcs | app/src/main/java/se/kjellstrand/fieldshootingtimer/SegmentedSemiCircle.kt:52-66 | one arc per sweep; arc `i` starts at the dial start plus the sweeps before `i`, spans sweep `i`, and has colour `i`, or gray past the end of the colours |
| DialGeometry.ArcsContiguous | app/src/main/java/se/kjellstrand/fieldshootingtimer/SegmentedSemiCircle.kt:52-66 | the first arc starts the dial and each arc ends where the next begins |
| DialGeometry.ArcsFillDial | app/src/main/java/se/kjellstrand/fieldshootingtimer/SegmentedSemiCircle.kt:32-66 | sweeps that fill the available angle make the last arc end at the dial's end |
| DialGeometry.BorderPath | app/src/main/java/se/kjellstrand/fieldshootingtimer/SegmentedSemiCircle.kt:81-95 | the outer arc runs from the dial start over the available angle, and the inner arc runs back by the same angle to where the outer began |
| DialGeometry.VisibleBadges | app/src/main/java/se/kjellstrand/fieldshootingtimer/ui/DialWithBadges.kt:75-131 | no badges when hidden; otherwise badge `i` is at centre `i` and shows time `i` truncated, as many as the shorter list |
| DialHand.CheckedSweeps | app/src/main/java/se/kjellstrand/fieldshootingtimer/CenteredSemiCircleWithMarkers.kt:45-53 | fails exactly when the total is not positive; otherwise one sweep per segment, adding up to 360 - gap |
| DialHand.ClampedHand | app/src/main/java/se/kjellstrand/fieldshootingtimer/DialWithHand.kt:45-88 | fails exactly when the total is not positive; otherwise the hand is the unclamped hand of `ui/DialHand.kt` at the time coerced into `[0, total]` |
| DialHand.ClampedHandWithinDial | app/src/main/java/se/kjellstrand/fieldshootingtimer/CenteredSemiCircleWithMarkers.kt:86-93 | whatever the time, the hand lies between the dial's start and end |
| DialHand.ClampedHandEnds | app/src/main/java/se/kjellstrand/fieldshootingtimer/CenteredSemiCircleWithMarkers.kt:89-93 | a time at or before 0 gives the start; a time at or past the total gives the end |
| DialHand.ClampedHandMonotone | app/src/main/java/se/kjellstrand/fieldshootingtimer/CenteredSemiCircleWithMarkers.kt:89-93 | a later time never puts the hand further back |
| DialHand.ClampedHandOnBoundary | app/src/main/java/se/kjellstrand/fieldshootingtimer/DialWithHand.kt:52-88 | during the run the hand is on boundary `i` exactly when the time is the total of the segments before `i` |
| DialHand.HandAngle | app/src/main/java/se/kjellstrand/fieldshootingtimer/ui/DialHand.kt:41-44 | time 0 puts the hand at the dial's start and the total at its end; `DialHand.HandAngleExtrapolates` and `DialHand.HandAngleAgreesWithinRun` state the rest |
| DialHand.HandAngleEnds | app/src/main/java/se/kjellstrand/fieldshootingtimer/ui/DialHand.kt:41-44 | at time 0 the hand is at the dial start; at the total it is at the dial end |
| DialHand.HandAngleExtrapolates | app/src/main/java/se/kjellstrand/fieldshootingtimer/ui/DialHand.kt:44 | with no clamp a negative time puts the hand before the start, and a time past the total puts it past the end |
| DialHand.HandAngleAgreesWithinRun | app/src/main/java/se/kjellstrand/fieldshootingtimer/ui/DialHand.kt:41-44 | within the run the unclamped hand equals the clamped one |
| DialHand.GapHandAngle | app/src/main/java/se/kjellstrand/fieldshootingtimer/DialHand.kt:43-45 | time 0 puts the hand at the start whatever angle it is given, and given 360 - gap it is the newer hand |
| DialHand.GapHandAngleEnds | app/src/main/java/se/kjellstrand/fieldshootingtimer/DialHand.kt:43-45 | at time 0 the hand is at the start whatever angle it is given; at the total it reaches the end exactly when the given angle is 360 - gap |
| DialHand.GapHandAngleIsHandAngle | app/src/main/java/se/kjellstrand/fieldshootingtimer/DialHand.kt:43-45 | given 360 - gap, the older hand is the newer one |
| DialHand.HandLength | app/src/main/java/se/kjellstrand/fieldshootingtimer/ui/DialHand.kt:39-47 | the hand is (size/2)(1 + overshoot) long, never shorter than the radius |
| DialHand.RingHandLength | app/src/main/java/se/kjellstrand/fieldshootingtimer/DialHand.kt:41-48 | the hand is ((size - ring)/2)(1 + overshoot) long, never shorter than the inner radius |
| DialHand.RingHandLengthWithoutRing | app/src/main/java/se/kjellstrand/fieldshootingtimer/DialHand.kt:41-48 | with no ring the two hand lengths agree |
| DialHand.RingCentreRadius | app/src/main/java/se/kjellstrand/fieldshootingtimer/CenteredSemiCircleWithMarkers.kt:77-99 | the preview hand reaches the ring's centre line: half the canvas less half the border, the ring's thickness cancelling out |
| RealSeqs.Sorted | app/src/main/java/se/kjellstrand/fieldshootingtimer/DialWithBadges.kt:132 | `sorted()` returns an ascending permutation of its input |
| BadgeSeparation.NormDiff | app/src/main/java/se/kjellstrand/fieldshootingtimer/DialWithBadges.kt:138-139 | the normalised difference lies in [0, 360) and is the same direction as the raw difference |
| BadgeSeparation.Place | app/src/main/java/se/kjellstrand/fieldshootingtimer/DialWithBadges.kt:137-144 | a badge at least `minSep` ahead is kept, and angles below a full turn give one below a full turn; `BadgeSeparation.PlaceSeparates` states the push |
| BadgeSeparation.PlaceSeparates | app/src/main/java/se/kjellstrand/fieldshootingtimer/DialWithBadges.kt:137-144 | a badge is kept exactly when it is at least `minSep` ahead; otherwise it ends exactly `minSep` ahead; either way it is at least `minSep` ahead |
| BadgeSeparation.PlaceWithinTurn | app/src/main/java/se/kjellstrand/fieldshootingtimer/DialWithBadges.kt:141-144 | a placed badge stays below 360 when its inputs do, and stays non-negative when they are |
| BadgeSeparation.Pass | app/src/main/java/se/kjellstrand/fieldshootingtimer/DialWithBadges.kt:136-148 | the pass places one badge per input angle |
| BadgeSeparation.PassSeparated | app/src/main/java/se/kjellstrand/fieldshootingtimer/DialWithBadges.kt:136-148 | for 0 <= minSep < 360 every placed badge is at least `minSep` ahead of the one before it, the first ahead of the starting angle |
| BadgeSeparation.PassWithinTurn | app/src/main/java/se/kjellstrand/fieldshootingtimer/DialWithBadges.kt:136-148 | inputs below 360 give outputs below 360; proper angles give proper angles |
| BadgeSeparation.PassKeepsSeparated | app/src/main/java/se/kjellstrand/fieldshootingtimer/DialWithBadges.kt:136-148 | badges that are already far enough apart are left where they are |
| BadgeSeparation.AdjustSorted | app/src/main/java/se/kjellstrand/fieldshootingtimer/DialWithBadges.kt:132-150 | fails with NoSuchElement exactly on an empty list; otherwise one badge per angle. Where the badges go is stated by `BadgeSeparation.AdjustSortedProperties` |
| BadgeSeparation.AdjustSortedProperties | app/src/main/java/se/kjellstrand/fieldshootingtimer/DialWithBadges.kt:132-150 | the output is spaced and below 360, and the first badge always moves to `minSep - 360` past its centre |
| BadgeSeparation.AdjustedMarkerAngles | app/src/main/java/se/kjellstrand/fieldshootingtimer/DialWithBadges.kt:113-151 | fails exactly on an empty dial; otherwise one badge per segment. Where the badges go is stated by `BadgeSeparation.AdjustedMarkerAnglesProperties` |
| BadgeSeparation.AdjustedMarkerAnglesProperties | app/src/main/java/se/kjellstrand/fieldshootingtimer/DialWithBadges.kt:113-151 | on a proper dial the angles are spaced and below 360, and the first is the smallest centre shifted by `minSep - 360` |
| BadgeSeparation.FirstBadgeCounterexample | app/src/main/java/se/kjellstrand/fieldshootingtimer/DialWithBadges.kt:134-144 | one 330-degree segment with a 30-degree gap is centred at 270, but its badge is drawn at -80 |
| BadgeSeparation.Separate | app/src/main/java/se/kjellstrand/fieldshootingtimer/DialWithBadges.kt:132-148 | corrected: the first badge stays where it is; `BadgeSeparation.SeparateSpaced` and `BadgeSeparation.SeparateLeavesSpaced` state the spacing |
| BadgeSeparation.SeparateSpaced | app/src/main/java/se/kjellstrand/fieldshootingtimer/DialWithBadges.kt:136-148 | the corrected pass, which keeps the first badge (`BadgeSeparation.Separate`), spaces every later one at least `minSep` from the one before |
| BadgeSeparation.SeparateLeavesSpaced | app/src/main/java/se/kjellstrand/fieldshootingtimer/DialWithBadges.kt:136-148 | the corrected pass leaves already spaced badges alone |
| BadgeSeparation.SeparateWithinTurn | app/src/main/java/se/kjellstrand/fieldshootingtimer/DialWithBadges.kt:141-144 | the corrected pass turns proper angles into proper angles |
| BadgeSeparation.SortedCentresWithinTurn | app/src/main/java/se/kjellstrand/fieldshootingtimer/DialWithBadges.kt:119-132 | on a proper dial the sorted centres are angles in [0, 360) |
| BadgeSeparation.AdjustedKeepingFirstProperties | app/src/main/java/se/kjellstrand/fieldshootingtimer/DialWithBadges.kt:113-151 | corrected: proper angles, the smallest centre keeps its place, consecutive badges at least `minSep` apart |
| BadgeSeparation.AdjustedKeepingFirst | app/src/main/java/se/kjellstrand/fieldshootingtimer/DialWithBadges.kt:131-150 | corrected: one angle per segment, the smallest centre kept in place; `BadgeSeparation.AdjustedKeepingFirstProperties` states the rest |
| BadgeSeparation.FirstBadgeCorrected | app/src/main/java/se/kjellstrand/fieldshootingtimer/DialWithBadges.kt:134-144 | corrected: the one-segment badge stays at its centre, 270 |
| BadgeSeparation.Pairs | app/src/main/java/se/kjellstrand/fieldshootingtimer/DialWithBadges.kt:96 | centre `i` paired with time `i`, as many as the shorter list |
| BadgeSeparation.Badges | app/src/main/java/se/kjellstrand/fieldshootingtimer/DialWithBadges.kt:89-109 | as written: fails on an empty dial; otherwise adjusted angle `i`, which is in angle order, shows time `i`, which is in segment order |
| BadgeSeparation.BadgeLabelCounterexample | app/src/main/java/se/kjellstrand/fieldshootingtimer/DialWithBadges.kt:96-109 | with segments of 300 and 30 degrees (10 and 1 seconds) the badge near the short segment shows 10 and the one at the long segment's centre shows 1 |
| BadgeSeparation.InsertByAngle | app/src/main/java/se/kjellstrand/fieldshootingtimer/DialWithBadges.kt:132 | inserting into an angle-ordered list keeps it ordered and adds exactly the new candidate |
| BadgeSeparation.SortByAngle | app/src/main/java/se/kjellstrand/fieldshootingtimer/DialWithBadges.kt:132 | the candidates sorted by angle: an ordered permutation, each keeping its own time |
| BadgeSeparation.SeparatedBadges | app/src/main/java/se/kjellstrand/fieldshootingtimer/DialWithBadges.kt:89-109 | corrected: one badge per segment that has a time. Which time each badge shows is stated by `BadgeSeparation.SeparatedBadgesKeepLabels` and `BadgeSeparation.SeparatedBadgesLabelEverySegment` |
| BadgeSeparation.SeparatedBadgesUnmoved | app/src/main/java/se/kjellstrand/fieldshootingtimer/DialWithBadges.kt:96-148 | corrected: when no badge needs moving, each badge is a sorted candidate with its own time |
| BadgeSeparation.SeparatedBadgesOwnSegment | app/src/main/java/se/kjellstrand/fieldshootingtimer/DialWithBadges.kt:96-109 | corrected: when no badge needs moving, every badge is some segment's centre showing that segment's time |
| BadgeSeparation.SeparatedBadgesEverySegment | app/src/main/java/se/kjellstrand/fieldshootingtimer/DialWithBadges.kt:96-109 | corrected: when no badge needs moving, every segment's centre appears with its own time |
| BadgeSeparation.SeparatedBadgesKeepLabels | app/src/main/java/se/kjellstrand/fieldshootingtimer/DialWithBadges.kt:96-109 | corrected, for every input: badge `j` shows the time of the segment whose centre was sorted into place `j`, at the angle the pass gave that centre |
| BadgeSeparation.SeparatedBadgesLabelEverySegment | app/src/main/java/se/kjellstrand/fieldshootingtimer/DialWithBadges.kt:96-109 | corrected, for every input: every segment with a time has a badge showing that time, at the angle the pass gave its centre |
| BadgeSeparation.BadgeLabelCorrected | app/src/main/java/se/kjellstrand/fieldshootingtimer/DialWithBadges.kt:96-109 | corrected: on the 300/30 dial the short segment's badge shows 1 and the long one's shows 10 |
| ThumbSlider.ValueToOffset | app/src/main/java/se/kjellstrand/fieldshootingtimer/ui/MultiThumbSlider.kt:125-129 | the range's first value maps to offset 0 and its last to the full width; `ThumbSlider.OffsetRoundTrip` makes it the inverse of `ThumbSlider.OffsetToValue` |
| ThumbSlider.OffsetToValue | app/src/main/java/se/kjellstrand/fieldshootingtimer/ui/MultiThumbSlider.kt:110 | offset 0 maps to the range's first value and the full width to its last |
| ThumbSlider.OffsetEnds | app/src/main/java/se/kjellstrand/fieldshootingtimer/ui/MultiThumbSlider.kt:125-129 | the range's first value maps to offset 0 and its last to the full width |
| ThumbSlider.ValueToOffsetIncreasing | app/src/main/java/se/kjellstrand/fieldshootingtimer/ui/MultiThumbSlider.kt:125-129 | on a proper range and track a larger value lies further along |
| ThumbSlider.OffsetRoundTrip | app/src/main/java/se/kjellstrand/fieldshootingtimer/ui/MultiThumbSlider.kt:105-110 | value to offset and offset to value are inverse maps, in both directions |
| ThumbSlider.ThumbOffsets | app/src/main/java/se/kjellstrand/fieldshootingtimer/ui/MultiThumbSlider.kt:125-129 | one offset per tick value, each where that value lies on the track |
| ThumbSlider.ThumbOffsetsOnTrack | app/src/main/java/se/kjellstrand/fieldshootingtimer/ui/MultiThumbSlider.kt:125-129 | values inside the range are drawn on the track, between 0 and the width |
| ThumbSlider.MarkerOffsets | app/src/main/java/se/kjellstrand/fieldshootingtimer/ui/MultiThumbSlider.kt:59 | one marker per integer from first to last; on a proper range marker `i` lies where the value `first + i` is drawn |
| ThumbSlider.MarkerOffsetsAreIntegerValues | app/src/main/java/se/kjellstrand/fieldshootingtimer/ui/MultiThumbSlider.kt:69-71 | marker `i` sits where the value `first + i` is drawn, from 0 to the full width |
| ThumbSlider.MarkersEvenlySpaced | app/src/main/java/se/kjellstrand/fieldshootingtimer/ui/MultiThumbSlider.kt:69-71 | neighbouring markers are width / (last - first) apart |
| ThumbSlider.DragMove | app/src/main/java/se/kjellstrand/fieldshootingtimer/ui/MultiThumbSlider.kt:104-116 | a drag event replaces only the dragged entry, keeping the length. The new value is stated by `ThumbSlider.DragMoveInRange`, `ThumbSlider.DragMoveFollowsPointer` and `ThumbSlider.DragMoveClampsToEnds` |
| ThumbSlider.DragMoveInRange | app/src/main/java/se/kjellstrand/fieldshootingtimer/ui/MultiThumbSlider.kt:106-110 | the dragged value always lies inside the range |
| ThumbSlider.DragMoveFollowsPointer | app/src/main/java/se/kjellstrand/fieldshootingtimer/ui/MultiThumbSlider.kt:104-110 | while the moved offset stays on the track, the thumb's new offset is its old offset plus the pointer's x inside the thumb's box |
| ThumbSlider.DragMoveClampsToEnds | app/src/main/java/se/kjellstrand/fieldshootingtimer/ui/MultiThumbSlider.kt:106-110 | a moved offset at or past the track's end gives the last value; one at or before its start gives the first value |
| ThumbSlider.DragGesture | app/src/main/java/se/kjellstrand/fieldshootingtimer/ui/MultiThumbSlider.kt:102-119 | one value report per drag event, each of full length, then exactly one rounding request at the end |
| ThumbSlider.DragGestureMovesOnlyIndex | app/src/main/java/se/kjellstrand/fieldshootingtimer/ui/MultiThumbSlider.kt:112-118 | throughout a gesture only the dragged value moves, and it stays inside the range |
| ThumbSlider.AddTick | app/src/main/java/se/kjellstrand/fieldshootingtimer/ui/TicksSlider.kt:41-47 | "+" appends one value, keeping the others, exactly when there are fewer values than the range is wide; otherwise nothing changes |
| ThumbSlider.RemoveTick | app/src/main/java/se/kjellstrand/fieldshootingtimer/ui/TicksSlider.kt:27-29 | "-" drops only the last value; an empty list stays empty; nothing else changes |
| ThumbSlider.TickCountBounded | app/src/main/java/se/kjellstrand/fieldshootingtimer/ui/TicksSlider.kt:27-47 | neither button takes the count past the range's width |
| ThumbSlider.RemoveUndoesAdd | app/src/main/java/se/kjellstrand/fieldshootingtimer/ui/TicksSlider.kt:27-47 | "-" undoes a successful "+" |

## Left out

- Drawing: arcs, lines, circles, badge drawing, text, `Path`, Dp/px conversion and sin/cos placement are rendering only. `minSep` is a parameter in place of `2 * asin(badgeRadius / ringRadius)`.
- Compose and coroutine machinery (`LaunchedEffect`, `withFrameMillis`, `isActive`, `remember`, `StateFlow`): replaced by the explicit `Click` and `Step` transitions, with the frame time as an input. The effect keyed on the running state is an explicit reset.
- Audio and haptics (`AudioManager`, `MediaPlayer`, the vibrator): device I/O. A played cue is an emitted index, a vibration is an emitted tick value, and the ringer's silent mode is a boolean input per frame.
- `ScreenEngine.Step`: it does not model the audio cues of `MainScreen.kt`. They go through `AudioManager.playAudioCue`, whose body is not part of this model. Only the discarding of the played set is modelled.
- `findNextFreeThumbSpot`, `roundThumbValues`, `addNewThumbValue` and `dropLastThumbValue` are not part of this model, because their bodies are not visible. The free spot is a parameter of `ThumbSlider.AddTick`, and the rounding is an emitted `RoundValues` request.
- Thin UI wiring: `ui/CommandList.kt`, `ui/TicksAdjuster.kt`, `ui/ShootTimeAdjuster.kt`, `ui/ShowSegmentTimes.kt`, `ui/TimerStateButton.kt`, `ControlButton.kt`, `ui/ShootTimer.kt`, `Timer.kt`, the theme and layout functions. They only pass values on.
- `ScreenEngine.EditTicks`: `MainScreen.kt:420` passes `enabled` to `TicksAdjuster`, but `ui/TicksAdjuster.kt:18-26` declares no such parameter, so the model follows the adjuster and lets tick edits happen in every timer state. Which marks an edit leaves is a parameter, because `addNewThumbValue`, `dropLastThumbValue` and `roundThumbValues` are not part of this model.
- `TimerViewModel.kt` and `TimerUiState.kt` in the root package: older copies whose setters make the same record updates as the `ui/` versions modelled here. The root view model has no `setThumbValues` and no per-field flows, and its `setTimerState` takes the root `TimerState`.
- `TimerUi.UiState`: the record declared in `ui/TimerUiState.kt` has no `thumbValues` field, although the view model sets one. The model adds the field, defaulting to empty.
- Float rounding: all arithmetic is exact. The first-badge shift below is an exact-arithmetic consequence that `Float` rounding could in principle hide.
- `ThumbSlider.ValueToOffset`, `ThumbSlider.ThumbOffsets` and `ThumbSlider.MarkerOffsets` require `first != last`. With `first == last`, Kotlin's float division gives NaN or infinity rather than a value the model could state.
- `ThumbSlider.OffsetToValue` and `ThumbSlider.DragMove` require a track width other than 0, for the same reason.
- `DialHand.HandAngle` and `DialHand.GapHandAngle` require a total other than 0: with a zero total the source divides by zero.
- `DialGeometry.Sweeps` and `DialGeometry.DegreesPerSecond` require a segment sum other than 0: with a zero sum the source divides by zero.
- `DialGeometry.TickAngle`, `DialGeometry.TickAngles` and `DialGeometry.IntTickAngles` require a `ticksMax` other than 0, for the same reason.
- `DialGeometry.Sweeps`: its own contract states only the length. What each sweep is, and that the sweeps fill the dial, is stated by `DialGeometry.SweepPrefix` and `DialGeometry.SweepsFillAvailable`.
- `BadgeSeparation.Pass`: its own contract states only the length. Its behaviour is stated by `BadgeSeparation.PassSeparated`, `BadgeSeparation.PassWithinTurn` and `BadgeSeparation.PassKeepsSeparated`.
- `BadgeSeparation.AdjustedKeepingFirst`: the corrected pass returns an empty list for an empty dial, where the source's `first()` throws.
- `CueEngine.SlideShootingTime` and `CueEngine.SlideShootingTimeRounded` require the new value to lie in 1..27. The slider's `valueRange` keeps it there.
- `ScreenEngine.RunVibratesOnlyReachedMarks`: it is stated for frames in time order. Compose's frame clock delivers frames that way.
- `CueEngine.RunPlaysOnlyReachedCues`: it is stated for frames in time order and a shooting time that is not negative. The slider keeps the time in 1..27.
- `MainActivity.kt:182` (`TODO()`): the body does not exist.
- `DialGeometry.Centers`, `DialGeometry.EndMarkers` and `DialGeometry.Arcs`: their contracts give each entry in closed form. That centres are the boundaries' midpoints, that markers are the boundaries without the first, and that arcs meet end to end is stated by `DialGeometry.CentersAreMidpoints`, `DialGeometry.EndMarkersAreSegmentEnds` and `DialGeometry.ArcsContiguous`.
- `BadgeSeparation.AdjustSorted`: its own contract states only when it fails and the length. Spacing, the bound below 360 and the first badge's shift are stated by `BadgeSeparation.AdjustSortedProperties`.
- `BadgeSeparation.AdjustedMarkerAngles`: its own contract states only when it fails and the length. Where the badges go is stated by `BadgeSeparation.AdjustedMarkerAnglesProperties`.
- `BadgeSeparation.SeparatedBadges`: its own contract states only the length. Which time each badge shows is stated by `BadgeSeparation.SeparatedBadgesKeepLabels` and `BadgeSeparation.SeparatedBadgesLabelEverySegment`.
- `ThumbSlider.DragMove`: its own contract states only the length and that other entries are kept. The new value is stated by `ThumbSlider.DragMoveInRange`, `ThumbSlider.DragMoveFollowsPointer` and `ThumbSlider.DragMoveClampsToEnds`.
- `CueEngine.Step`: the model reads back the time the frame has just written. `MainActivity.kt:119` writes it through the view model, but `MainActivity.kt:121` and `MainActivity.kt:129` read `timerUiState`, a `collectAsState` value (`MainActivity.kt:75`) that only changes once the collector runs, and nothing suspends in between. So in the source a cue due at this frame plays one frame later, the finish comes one frame later, and the time passes the total for that one frame before it is set back. The model's `Step`, `CueEngine.ReachingTotalFinishes` and `CueEngine.StepPlaysDueCues` state the immediate reading.
- `ScreenEngine.Step`: the same stale reading. `MainScreen.kt:211` writes the time, while `MainScreen.kt:214` and `MainScreen.kt:219` read `savedCurrentTime`, which only composition reassigns (`MainScreen.kt:96`). The model's `Step`, `ScreenEngine.StepReachingTotalFinishes` and `ScreenEngine.StepAdvancesTime` state the immediate reading, without the one-frame delay and overshoot.
- `ThumbSlider.DragGesture`: each drag event starts from the values the previous event reported. In the source the handler reads `currentThumbValues`, which `rememberUpdatedState` (`ui/MultiThumbSlider.kt:48`) refreshes only when the slider recomposes, so an event that arrives before then starts from older values. The model assumes the owner's new values reach the handler at once.
- `ScreenEngine.AdjustShootingTime`: the model lets the adjuster act only before the start. This follows `MainScreen.kt:408-414`, which passes `enabled` for the `NotStarted` state, and `ui/ShootTimeAdjuster.kt:24` and `ui/ShootTimeAdjuster.kt:35`, which declare it and pass it on. `ui/MultiThumbSlider.kt:28-42` declares neither `enabled` nor `inactiveColor`, and the adjuster does not pass the required `onHorizontalDragRoundThumbValues`, so these files do not fit together as they stand. `ui/TicksAdjuster.kt` does not take `enabled` at all, which is why `ScreenEngine.EditTicks` is not gated.

## Findings

| source | as written | input that shows it | evidently intended | confidence | as-written member | corrected member |
|---|---|---|---|---|---|---|
| app/src/main/java/se/kjellstrand/fieldshootingtimer/DialWithBadges.kt:134-144 | The pass starts with the previous angle set to the first sorted centre less 360. The first badge therefore sees a difference of 0 and, whenever `minSep > 0`, is always moved to `first - 360 + minSep`. | One segment of 330 degrees, gap 30, `minSep` 10: the centre is 270, but the badge is drawn at -80, which is 280. | The first badge stays at its centre, and later badges are spaced from it. | not executed | BadgeSeparation.FirstBadgeCounterexample | BadgeSeparation.SeparateSpaced |
| app/src/main/java/se/kjellstrand/fieldshootingtimer/DialWithBadges.kt:96-109 | `calculateAdjustedMarkerAngles` returns the badges sorted by angle. `Badges` then zips them with the segment times in segment order, so a badge can show another segment's time. | Segments of 300 and 30 degrees (10 and 1 seconds), gap 30, `minSep` 10: the centres are 255 and 60. The badges come out as (-290, "10") and (255, "1"). | Each badge shows its own segment's time: (60, "1") and (255, "10"). | not executed | BadgeSeparation.BadgeLabelCounterexample | BadgeSeparation.SeparatedBadgesLabelEverySegment |
