/** The drill timer of `MainActivity.kt`: five dial segments, the audio cue
    due at the start of each, and the frame loop that advances the time while
    the timer runs, plays every cue that has come due exactly once per running
    episode, and stops at the end of the last segment.

    The Compose effect keyed on the running state is modelled explicitly: every
    change of state discards the frame loop and the set of played cues, and
    entering Running starts a new loop that first waits for one frame to seed
    its clock. */
module CueEngine {
  import opened Numerics
  import opened RealSeqs
  import opened Commands
  import opened TimerUi
  import opened Collections
  import opened FrameLoop
  import PlayButton

  /** `ceaseFireDuration`. */
  const CeaseFireDuration: real := 3.0

  /** `segmentDurations`: prepare, ready, fire (the shooting time truncated to
      whole seconds), cease-fire and unload. */
  function Segments(shootingDuration: real): (r: seq<real>)
    ensures |r| == 5
    ensures forall k :: 0 <= k < |r| ==> IsWhole(r[k])
    ensures 0.0 <= shootingDuration ==> AllNonNeg(r)
  {
    WholeOfInt(Trunc(shootingDuration));
    WholeOfInt(7);
    WholeOfInt(3);
    WholeOfInt(1);
    [7.0, 3.0, Trunc(shootingDuration) as real, CeaseFireDuration, 1.0]
  }

  /** `totalDuration`: the sum of the segments. */
  function Total(shootingDuration: real): (r: real)
    ensures r == 14.0 + Trunc(shootingDuration) as real
  {
    var d := Segments(shootingDuration);
    assert d[4..][1..] == [];
    assert Sum(d[4..]) == 1.0;
    assert d[3..][1..] == d[4..];
    assert Sum(d[3..]) == 4.0;
    assert d[2..][1..] == d[3..];
    assert Sum(d[2..]) == 4.0 + Trunc(shootingDuration) as real;
    assert d[1..][1..] == d[2..];
    assert Sum(d[1..]) == 7.0 + Trunc(shootingDuration) as real;
    Sum(d)
  }

  /** The `for` loop of `audioCueStartTimes` from index `i`, with `acc` the
      time accumulated so far. */
  function StartTimesFrom(d: seq<real>, i: nat, acc: real): (r: seq<real>)
    requires i <= |d| && acc == Prefix(d, i)
    ensures |r| == |d| - i
    ensures forall k :: 0 <= k < |r| ==> r[k] == Prefix(d, i + k)
    decreases |d| - i
  {
    if i == |d| then []
    else
      PrefixStep(d, i);
      [acc] + StartTimesFrom(d, i + 1, acc + d[i])
  }

  /** `audioCueStartTimes`: where each segment starts, one entry per segment. */
  function StartTimes(d: seq<real>): (r: seq<real>)
    ensures |r| == |d|
    ensures forall k :: 0 <= k < |d| ==> r[k] == Prefix(d, k)
  {
    assert d[..0] == [];
    StartTimesFrom(d, 0, 0.0)
  }

  /** With non-negative segments the start times begin at 0, never decrease,
      and all lie within the total. */
  lemma StartTimesAscending(d: seq<real>)
    requires AllNonNeg(d)
    ensures |d| > 0 ==> StartTimes(d)[0] == 0.0
    ensures Ascending(StartTimes(d))
    ensures forall k :: 0 <= k < |d| ==> 0.0 <= StartTimes(d)[k] <= Sum(d)
  {
    var r := StartTimes(d);
    assert d[..0] == [];
    forall i, j | 0 <= i < j < |r|
      ensures r[i] <= r[j]
    {
      PrefixMonotone(d, i, j);
    }
    forall k | 0 <= k < |d|
      ensures 0.0 <= r[k] <= Sum(d)
    {
      PrefixAtMostSum(d, k);
    }
  }

  /** One audio cue: when it is due and the clip it plays. */
  datatype AudioCue = AudioCue(time: real, clip: AudioClip)

  /** The clips, in segment order. */
  function Clips(): seq<AudioClip>
  {
    [TioSekunderKvar, Fardiga, Eld, EldUppHor, PatronUrProppaVapen]
  }

  /** `audioCues`: one cue per segment, due when the segment starts. */
  function Cues(shootingDuration: real): (r: seq<AudioCue>)
    ensures |r| == |Segments(shootingDuration)|
    ensures forall k :: 0 <= k < |r| ==>
              r[k] == AudioCue(Prefix(Segments(shootingDuration), k), Clips()[k])
  {
    var t := StartTimes(Segments(shootingDuration));
    [AudioCue(t[0], Clips()[0]), AudioCue(t[1], Clips()[1]), AudioCue(t[2], Clips()[2]),
     AudioCue(t[3], Clips()[3]), AudioCue(t[4], Clips()[4])]
  }

  /** For a non-negative shooting time the cues are due at 0, 7, 10, 10 + T
      and 13 + T seconds, T the truncated shooting time, all before the end. */
  lemma CueTimes(shootingDuration: real)
    requires 0.0 <= shootingDuration
    ensures var c, t := Cues(shootingDuration), Trunc(shootingDuration) as real;
            c[0].time == 0.0 && c[1].time == 7.0 && c[2].time == 10.0 &&
            c[3].time == 10.0 + t && c[4].time == 13.0 + t
    ensures forall k :: 0 <= k < |Cues(shootingDuration)| ==>
              Cues(shootingDuration)[k].time < Total(shootingDuration)
  {
    var d := Segments(shootingDuration);
    assert d[..0] == [];
    PrefixStep(d, 0);
    PrefixStep(d, 1);
    PrefixStep(d, 2);
    PrefixStep(d, 3);
  }

  /** Indices in ascending order. */
  predicate Increasing(s: seq<nat>) {
    forall i, j :: 0 <= i < j < |s| ==> s[i] < s[j]
  }

  /** The cues played by one pass over the cue list, and the played set after it. */
  datatype Firing = Firing(fired: seq<nat>, played: set<nat>)

  /** One pass of the `for ((index, audioCue) in audioCues.withIndex())` loop,
      from index `i`: a cue plays when it is due and not yet played, and is
      then recorded as played. */
  function FireFrom(time: real, cues: seq<AudioCue>, played: set<nat>, i: nat): (r: Firing)
    requires i <= |cues|
    ensures forall k: nat :: k in r.fired <==> i <= k < |cues| && cues[k].time <= time && k !in played
    ensures Increasing(r.fired)
    ensures r.played == played + Elems(r.fired)
    decreases |cues| - i
  {
    if i == |cues| then Firing([], played)
    else if time >= cues[i].time && i !in played then
      var rest := FireFrom(time, cues, played + {i}, i + 1);
      var fired := [i] + rest.fired;
      assert Elems(fired) == {i} + Elems(rest.fired);
      assert forall j :: 0 < j < |fired| ==> i < fired[j] by {
        forall j | 0 < j < |fired|
          ensures i < fired[j]
        {
          assert fired[j] == rest.fired[j - 1];
          assert fired[j] in rest.fired;
        }
      }
      Firing(fired, rest.played)
    else
      FireFrom(time, cues, played, i + 1)
  }

  /** A pass over the whole cue list. */
  function FireDue(time: real, cues: seq<AudioCue>, played: set<nat>): (r: Firing)
    ensures forall k: nat :: k in r.fired <==> k < |cues| && cues[k].time <= time && k !in played
    ensures Increasing(r.fired)
    ensures Distinct(r.fired)
    ensures r.played == played + Elems(r.fired)
  {
    FireFrom(time, cues, played, 0)
  }

  /** The screen's state: the UI record, the played cues and the frame loop. */
  datatype Engine = Engine(ui: UiState, played: set<nat>, loop: Loop)

  /** What an event did: the new state and the cues it played, in order. */
  datatype Outcome = Outcome(engine: Engine, fired: seq<nat>)

  function CuesOf(ui: UiState): seq<AudioCue>
  {
    Cues(ui.shootingDuration)
  }

  function TotalOf(ui: UiState): real
  {
    Total(ui.shootingDuration)
  }

  /** A frame loop is running. */
  predicate Active(e: Engine) {
    e.ui.timerRunningState == Running && !e.loop.Idle?
  }

  /** A click on the play button (`PlayButton`, lines 324-339). The state
      always changes, so the played set is discarded; on entering Running the
      cues already due play at once and a new loop waits for its first frame. */
  function Click(e: Engine): (r: Outcome)
    ensures r.engine.ui == PlayButton.Click(e.ui)
    ensures r.engine.ui.timerRunningState == Running <==> Active(r.engine)
    ensures r.engine.ui.timerRunningState == Running ==>
              r.engine.loop == AwaitFirstFrame &&
              (forall k: nat :: k in r.fired <==>
                 k < |CuesOf(e.ui)| && CuesOf(e.ui)[k].time <= e.ui.currentTime) &&
              r.engine.played == Elems(r.fired)
    ensures r.engine.ui.timerRunningState != Running ==> r.fired == [] && r.engine.played == {}
    ensures Distinct(r.fired)
  {
    var ui := PlayButton.Click(e.ui);
    if ui.timerRunningState == Running then
      var f := FireDue(ui.currentTime, CuesOf(ui), {});
      Outcome(Engine(ui, f.played, AwaitFirstFrame), f.fired)
    else
      Outcome(Engine(ui, {}, Idle), [])
  }

  /** The time a ticking loop reaches on a frame, before clamping. */
  function Advanced(e: Engine, frameMs: int): real
    requires e.loop.Ticking?
  {
    e.ui.currentTime + Elapsed(e.loop.lastFrameMs, frameMs)
  }

  /** One frame of the loop at time `frameMs`. The first frame only seeds the
      clock. Later frames advance the time by the elapsed milliseconds, play
      the cues that have come due, and on reaching the total set the time to
      exactly the total and finish. A loop whose time is already at the total
      ends without a change. */
  function Step(e: Engine, frameMs: int): (r: Outcome)
    ensures !Active(e) ==> r == Outcome(e, [])
    ensures e.loop == AwaitFirstFrame && Active(e) ==>
              r == Outcome(e.(loop := Ticking(frameMs)), [])
    ensures Active(e) && e.loop.Ticking? && TotalOf(e.ui) <= e.ui.currentTime ==>
              r == Outcome(e.(loop := Idle), [])
    ensures Active(e) && e.loop.Ticking? && e.ui.currentTime < TotalOf(e.ui) ==>
              (TotalOf(e.ui) <= Advanced(e, frameMs) ==>
                 r.engine.ui == SetTimerState(SetCurrentTime(e.ui, TotalOf(e.ui)), Finished) &&
                 r.engine.loop == Idle) &&
              (Advanced(e, frameMs) < TotalOf(e.ui) ==>
                 r.engine.ui == SetCurrentTime(e.ui, Advanced(e, frameMs)) &&
                 r.engine.loop == Ticking(frameMs)) &&
              (forall k: nat :: k in r.fired <==>
                 k < |CuesOf(e.ui)| && CuesOf(e.ui)[k].time <= Advanced(e, frameMs) && k !in e.played)
    ensures r.engine.ui.shootingDuration == e.ui.shootingDuration
    ensures r.engine.ui.thumbValues == e.ui.thumbValues
    ensures r.engine.ui.badgesVisible == e.ui.badgesVisible
    ensures r.engine.ui.timerRunningState in {e.ui.timerRunningState, Finished}
    ensures r.engine.ui.timerRunningState != e.ui.timerRunningState ==>
              r.engine.ui.currentTime == TotalOf(e.ui) && r.engine.played == {} && !Active(r.engine)
    ensures e.ui.currentTime <= TotalOf(e.ui) ==> r.engine.ui.currentTime <= TotalOf(e.ui)
    ensures r.engine.ui.timerRunningState == e.ui.timerRunningState ==>
              r.engine.played == e.played + Elems(r.fired)
    ensures forall k :: k in r.fired ==> k !in e.played
    ensures Increasing(r.fired)
    ensures Distinct(r.fired)
  {
    if !Active(e) then Outcome(e, [])
    else match e.loop
      case AwaitFirstFrame => Outcome(e.(loop := Ticking(frameMs)), [])
      case Ticking(_) =>
        var total := TotalOf(e.ui);
        if e.ui.currentTime >= total then Outcome(e.(loop := Idle), [])
        else
          var t := Advanced(e, frameMs);
          var f := FireDue(t, CuesOf(e.ui), e.played);
          if t >= total then
            var ui := SetTimerState(SetCurrentTime(e.ui, total), Finished);
            Outcome(Engine(ui, {}, Idle), f.fired)
          else
            Outcome(Engine(SetCurrentTime(e.ui, t), f.played, Ticking(frameMs)), f.fired)
  }

  /** A run of frames with no click in between; the cues played are collected in order. */
  function Run(e: Engine, frames: seq<int>): (r: Outcome)
    ensures r.engine.ui.shootingDuration == e.ui.shootingDuration
    ensures r.engine.ui.thumbValues == e.ui.thumbValues
    ensures r.engine.ui.badgesVisible == e.ui.badgesVisible
    ensures r.engine.ui.timerRunningState in {e.ui.timerRunningState, Finished}
    decreases |frames|
  {
    if |frames| == 0 then Outcome(e, [])
    else
      var o := Step(e, frames[0]);
      var rest := Run(o.engine, frames[1..]);
      Outcome(rest.engine, o.fired + rest.fired)
  }

  /** The first frame after a start only seeds the clock, so the first time
      step is the gap between the first two frames, not the time since some
      earlier frame. */
  lemma SeededFirstDelta(e: Engine, f1: int, f2: int)
    requires Active(e) && e.loop == AwaitFirstFrame
    requires e.ui.currentTime < TotalOf(e.ui)
    ensures var e2 := Step(Step(e, f1).engine, f2).engine;
            var t := e.ui.currentTime + Elapsed(f1, f2);
            e2.ui.currentTime == (if t >= TotalOf(e.ui) then TotalOf(e.ui) else t) &&
            (e2.ui.timerRunningState == Finished <==> t >= TotalOf(e.ui))
  {
  }

  /** Reaching the total finishes the timer with the time at exactly the total. */
  lemma ReachingTotalFinishes(e: Engine, frameMs: int)
    requires Active(e) && e.loop.Ticking? && e.ui.currentTime < TotalOf(e.ui)
    requires Advanced(e, frameMs) >= TotalOf(e.ui)
    ensures Step(e, frameMs).engine.ui ==
              SetTimerState(SetCurrentTime(e.ui, TotalOf(e.ui)), Finished)
  {
  }

  /** The running loop has played every cue that is due. */
  predicate AllDuePlayed(e: Engine) {
    Active(e) ==>
      forall k: nat :: k < |CuesOf(e.ui)| && CuesOf(e.ui)[k].time <= e.ui.currentTime ==> k in e.played
  }

  /** Starting the timer leaves no due cue unplayed. */
  lemma ClickPlaysDueCues(e: Engine)
    ensures AllDuePlayed(Click(e).engine)
  {
  }

  /** No frame skips a cue: whatever time a step reaches, every cue due by
      then has played. */
  lemma StepPlaysDueCues(e: Engine, frameMs: int)
    requires AllDuePlayed(e)
    ensures AllDuePlayed(Step(e, frameMs).engine)
  {
  }

  /** The step that finishes the timer plays every cue not played before, so
      the whole schedule is heard before Finished. */
  lemma FinishingStepPlaysTheRest(e: Engine, frameMs: int)
    requires Active(e) && 0.0 <= e.ui.shootingDuration
    requires Step(e, frameMs).engine.ui.timerRunningState == Finished
    ensures forall k: nat :: k < |CuesOf(e.ui)| ==> k in e.played || k in Step(e, frameMs).fired
  {
    CueTimes(e.ui.shootingDuration);
  }

  /** A stopped or finished screen ignores frames. */
  lemma {:induction false} PassiveRun(e: Engine, frames: seq<int>)
    requires !Active(e)
    ensures Run(e, frames) == Outcome(e, [])
    decreases |frames|
  {
    if |frames| > 0 {
      PassiveRun(e, frames[1..]);
    }
  }

  /** Over a run of frames no cue plays twice, none already played plays
      again, and while the timer keeps running the played set is exactly the
      cues played so far. */
  lemma {:induction false} RunPlaysEachCueOnce(e: Engine, frames: seq<int>)
    ensures Distinct(Run(e, frames).fired)
    ensures forall k :: k in Run(e, frames).fired ==> k !in e.played
    ensures Run(e, frames).engine.ui.timerRunningState == e.ui.timerRunningState ==>
              Run(e, frames).engine.played == e.played + Elems(Run(e, frames).fired)
    decreases |frames|
  {
    if |frames| > 0 {
      var o := Step(e, frames[0]);
      var rest := Run(o.engine, frames[1..]);
      if o.engine.ui.timerRunningState == e.ui.timerRunningState {
        RunPlaysEachCueOnce(o.engine, frames[1..]);
        DistinctAppend(o.fired, rest.fired);
        ElemsAppend(o.fired, rest.fired);
      } else {
        PassiveRun(o.engine, frames[1..]);
        assert o.fired + rest.fired == o.fired;
      }
    }
  }

  /** The loop's clock has not passed frame time `ms`. */
  predicate ClockNotAfter(e: Engine, ms: int) {
    e.loop.Ticking? ==> e.loop.lastFrameMs <= ms
  }

  /** A frame that does not come before the last one never moves time back,
      and leaves the clock at or before that frame. */
  lemma StepTimeForward(e: Engine, frameMs: int)
    requires ClockNotAfter(e, frameMs)
    ensures e.ui.currentTime <= Step(e, frameMs).engine.ui.currentTime
    ensures forall ms :: frameMs <= ms ==> ClockNotAfter(Step(e, frameMs).engine, ms)
  {
  }

  /** Frames in time order, none before the loop's clock. */
  predicate FramesInOrder(e: Engine, frames: seq<int>) {
    (forall i :: 0 <= i < |frames| ==> ClockNotAfter(e, frames[i])) &&
    (forall i, j :: 0 <= i < j < |frames| ==> frames[i] <= frames[j])
  }

  /** After the first of frames in time order, the rest are still in order. */
  lemma FramesInOrderAfterStep(e: Engine, frames: seq<int>)
    requires |frames| > 0 && FramesInOrder(e, frames)
    ensures FramesInOrder(Step(e, frames[0]).engine, frames[1..])
  {
    var o := Step(e, frames[0]);
    StepTimeForward(e, frames[0]);
    var rest := frames[1..];
    forall i | 0 <= i < |rest|
      ensures ClockNotAfter(o.engine, rest[i])
    {
      assert frames[0] <= frames[i + 1];
    }
  }

  /** Over frames in time order the time never moves back. */
  lemma {:induction false} RunTimeForward(e: Engine, frames: seq<int>)
    requires FramesInOrder(e, frames)
    ensures e.ui.currentTime <= Run(e, frames).engine.ui.currentTime
    decreases |frames|
  {
    if |frames| > 0 {
      StepTimeForward(e, frames[0]);
      FramesInOrderAfterStep(e, frames);
      RunTimeForward(Step(e, frames[0]).engine, frames[1..]);
    }
  }

  /** A cue a frame plays is due by the time that frame leaves: the time it
      advanced to, or the total it stopped at, which every cue precedes. */
  lemma StepPlaysOnlyReachedCues(e: Engine, frameMs: int)
    requires 0.0 <= e.ui.shootingDuration
    ensures forall k :: k in Step(e, frameMs).fired ==>
              k < |CuesOf(e.ui)| && CuesOf(e.ui)[k].time <= Step(e, frameMs).engine.ui.currentTime
  {
    CueTimes(e.ui.shootingDuration);
  }

  /** With frames in time order, a cue plays during a run only if the run's
      final time has reached it. */
  lemma {:induction false} RunPlaysOnlyReachedCues(e: Engine, frames: seq<int>)
    requires 0.0 <= e.ui.shootingDuration && FramesInOrder(e, frames)
    ensures forall k :: k in Run(e, frames).fired ==>
              k < |CuesOf(e.ui)| && CuesOf(e.ui)[k].time <= Run(e, frames).engine.ui.currentTime
    decreases |frames|
  {
    if |frames| > 0 {
      var o := Step(e, frames[0]);
      StepPlaysOnlyReachedCues(e, frames[0]);
      FramesInOrderAfterStep(e, frames);
      RunTimeForward(o.engine, frames[1..]);
      RunPlaysOnlyReachedCues(o.engine, frames[1..]);
    }
  }

  /** The shooting-time slider (lines 273-287): enabled only before the
      start; a new value (the slider keeps it in 1..27) is stored as is, and
      the played set is cleared. */
  function SlideShootingTime(e: Engine, value: real): (r: Engine)
    requires 1.0 <= value <= 27.0
    ensures e.ui.timerRunningState != NotStarted ==> r == e
    ensures e.ui.timerRunningState == NotStarted ==>
              r.ui == SetShootingTime(e.ui, value) && r.played == {} && r.loop == e.loop
  {
    if e.ui.timerRunningState != NotStarted then e
    else Engine(SetShootingTime(e.ui, value), {}, e.loop)
  }

  /** The shooting-time slider of `ui/ShootTimeSlider.kt`: as above, but the
      value is first rounded to whole seconds. */
  function SlideShootingTimeRounded(e: Engine, value: real): (r: Engine)
    requires 1.0 <= value <= 27.0
    ensures e.ui.timerRunningState != NotStarted ==> r == e
    ensures e.ui.timerRunningState == NotStarted ==>
              r.ui == SetShootingTime(e.ui, RoundHalfUp(value) as real) && r.played == {}
    ensures 1.0 <= r.ui.shootingDuration <= 27.0 || r == e
    ensures IsWhole(r.ui.shootingDuration) || r == e
  {
    WholeOfInt(RoundHalfUp(value));
    if e.ui.timerRunningState != NotStarted then e
    else Engine(SetShootingTime(e.ui, RoundHalfUp(value) as real), {}, e.loop)
  }

  /** A rounded shooting time is whole, so truncation loses nothing and the
      total is exactly 14 seconds more. */
  lemma RoundedTotal(e: Engine, value: real)
    requires 1.0 <= value <= 27.0
    requires e.ui.timerRunningState == NotStarted
    ensures var s := SlideShootingTimeRounded(e, value).ui.shootingDuration;
            Total(s) == 14.0 + s && Trunc(s) as real == s
  {
  }
}
