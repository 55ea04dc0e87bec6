/** The geometry of the segmented dial (`ui/DecoratedDial.kt`,
    `ui/DialWithBadges.kt`, `SegmentedSemiCircle.kt`,
    `SegmentedSemiCircleWithMarkers.kt`). Angles are in degrees, measured
    clockwise from the positive x axis as the canvas draws them, so 90 is
    straight down. The dial leaves a gap of `gap` degrees centred at the
    bottom and spreads the segments over the remaining `360 - gap`. */
module DialGeometry {
  import opened Numerics
  import opened RealSeqs
  import opened Commands

  /** `availableAngle`: the part of the circle the segments cover. */
  function AvailableAngle(gap: real): real
  {
    Turn - gap
  }

  /** `270f - (availableAngle / 2)`: where the first segment starts. The gap
      runs from the end of the dial round to the start and is centred on 90. */
  function StartAngle(gap: real): (r: real)
    ensures r == 90.0 + gap / 2.0
    ensures (r + AvailableAngle(gap) - Turn + r) / 2.0 == 90.0
    ensures r + AvailableAngle(gap) / 2.0 == 270.0
  {
    270.0 - AvailableAngle(gap) / 2.0
  }

  /** `availableAngle / sumOfSegments`: degrees of dial per second. A zero
      sum would divide by zero. */
  function DegreesPerSecond(segments: seq<real>, available: real): real
    requires Sum(segments) != 0.0
  {
    available / Sum(segments)
  }

  /** `segments.map { it * (availableAngle / sumOfSegments) }`. */
  function Sweeps(segments: seq<real>, available: real): (r: seq<real>)
    requires Sum(segments) != 0.0
    ensures |r| == |segments|
  {
    Scale(segments, DegreesPerSecond(segments, available))
  }

  /** The sweeps share out exactly the available angle. */
  lemma SweepsFillAvailable(segments: seq<real>, available: real)
    requires Sum(segments) != 0.0
    ensures Sum(Sweeps(segments, available)) == available
  {
    var k := DegreesPerSecond(segments, available);
    SumScale(segments, k);
    assert Sum(segments) * k == available;
  }

  /** Scaling keeps each segment's share of the dial: the sweep before
      segment `i` is the time before it times the degrees per second. */
  lemma SweepPrefix(segments: seq<real>, available: real, i: nat)
    requires Sum(segments) != 0.0 && i <= |segments|
    ensures Prefix(Sweeps(segments, available), i) ==
            Prefix(segments, i) * DegreesPerSecond(segments, available)
  {
    PrefixScale(segments, DegreesPerSecond(segments, available), i);
  }

  /** `(1..ticksMax).map { it.toFloat() }` with `ticksMax = sumOfSegments.toInt()`. */
  function EverySecondTicks(sumOfSegments: real): (r: seq<real>)
    ensures |r| == if Trunc(sumOfSegments) < 0 then 0 else Trunc(sumOfSegments)
    ensures forall i :: 0 <= i < |r| ==> r[i] == (i + 1) as real
  {
    var n := Trunc(sumOfSegments);
    if n <= 0 then [] else seq(n, i requires 0 <= i < n => (i + 1) as real)
  }

  /** The every-second ticks are exactly the whole seconds from 1 to the
      truncated total. */
  lemma EverySecondTicksAreWholeSeconds(sumOfSegments: real, x: real)
    ensures x in EverySecondTicks(sumOfSegments) <==>
              IsWhole(x) && 1.0 <= x <= Trunc(sumOfSegments) as real
  {
    var r := EverySecondTicks(sumOfSegments);
    if IsWhole(x) && 1.0 <= x <= Trunc(sumOfSegments) as real {
      var i := x.Floor - 1;
      assert r[i] == x;
    }
    if x in r {
      var i :| 0 <= i < |r| && r[i] == x;
      WholeOfInt(i + 1);
    }
  }

  /** The tick map: `270f - (360f - gap) / 2 + (tick / ticksMax) * (360f - gap)`.
      A zero `ticksMax` would divide by zero. */
  function TickAngle(tick: real, ticksMax: int, gap: real): (r: real)
    requires ticksMax != 0
    ensures tick == 0.0 ==> r == StartAngle(gap)
    ensures tick == ticksMax as real ==> r == StartAngle(gap) + AvailableAngle(gap)
  {
    StartAngle(gap) + (tick / ticksMax as real) * AvailableAngle(gap)
  }

  /** Tick 0 sits at the start of the dial, tick `ticksMax` at its end, and
      on a proper dial a later tick always lies further round. */
  lemma TickAngleEnds(ticksMax: int, gap: real, a: real, b: real)
    requires 0 < ticksMax && gap < Turn
    ensures TickAngle(0.0, ticksMax, gap) == StartAngle(gap)
    ensures TickAngle(ticksMax as real, ticksMax, gap) == StartAngle(gap) + AvailableAngle(gap)
    ensures a < b ==> TickAngle(a, ticksMax, gap) < TickAngle(b, ticksMax, gap)
  {
    if a < b {
      var n := ticksMax as real;
      assert a / n < b / n;
      assert (a / n) * AvailableAngle(gap) < (b / n) * AvailableAngle(gap);
    }
  }

  /** `Ticks` of `DecoratedDial`: the tick map over a list of float ticks. */
  function TickAngles(ticks: seq<real>, ticksMax: int, gap: real): (r: seq<real>)
    requires ticksMax != 0
    ensures |r| == |ticks|
    ensures forall i :: 0 <= i < |r| ==> r[i] == TickAngle(ticks[i], ticksMax, gap)
  {
    seq(|ticks|, i requires 0 <= i < |ticks| => TickAngle(ticks[i], ticksMax, gap))
  }

  /** `TickMarks` of `ui/DialWithBadges.kt`: integer ticks over the truncated
      segment total. */
  function IntTickAngles(ticks: seq<int>, sumOfSegments: real, gap: real): (r: seq<real>)
    requires Trunc(sumOfSegments) != 0
    ensures |r| == |ticks|
    ensures forall i :: 0 <= i < |r| ==>
              r[i] == StartAngle(gap) + (ticks[i] as real / Trunc(sumOfSegments) as real) * AvailableAngle(gap)
  {
    seq(|ticks|, i requires 0 <= i < |ticks| => TickAngle(ticks[i] as real, Trunc(sumOfSegments), gap))
  }

  /** The text of a tick badge: the tick less the seconds before Fire, rounded. */
  function TickLabel(tick: real): (r: int)
    ensures tick - 10.5 < r as real <= tick - 9.5
  {
    RoundHalfUp(tick - TenSecondsLeft.Duration() as real - Ready.Duration() as real)
  }

  /** The boundary loop of `calculateSegmentAngles` from index `i`, with
      `current` the unwrapped angle reached so far. */
  function BoundariesFrom(sweeps: seq<real>, start: real, i: nat, current: real): (r: seq<real>)
    requires i <= |sweeps| && current == start + Prefix(sweeps, i)
    ensures |r| == |sweeps| - i + 1
    ensures forall k :: 0 <= k < |r| ==> r[k] == Rem360(start + Prefix(sweeps, i + k))
    decreases |sweeps| - i
  {
    if i == |sweeps| then [Rem360(current)]
    else
      PrefixStep(sweeps, i);
      [Rem360(current)] + BoundariesFrom(sweeps, start, i + 1, current + sweeps[i])
  }

  /** `calculateSegmentAngles`: the start of every segment and the end of the
      last, each reduced by the truncated `% 360`. */
  function Boundaries(sweeps: seq<real>, gap: real): (r: seq<real>)
    ensures |r| == |sweeps| + 1
    ensures forall i :: 0 <= i < |r| ==> r[i] == Rem360(StartAngle(gap) + Prefix(sweeps, i))
  {
    assert sweeps[..0] == [];
    BoundariesFrom(sweeps, StartAngle(gap), 0, StartAngle(gap))
  }

  /** The centre loop of `centerOnSegmentMarkerAngles` from index `i`: advance
      half a sweep, record, advance the other half. */
  function CentersFrom(sweeps: seq<real>, start: real, i: nat, current: real): (r: seq<real>)
    requires i <= |sweeps| && current == start + Prefix(sweeps, i)
    ensures |r| == |sweeps| - i
    ensures forall k :: 0 <= k < |r| ==>
              r[k] == Rem360(start + Prefix(sweeps, i + k) + sweeps[i + k] / 2.0)
    decreases |sweeps| - i
  {
    if i == |sweeps| then []
    else
      PrefixStep(sweeps, i);
      var mid := current + sweeps[i] / 2.0;
      [Rem360(mid)] + CentersFrom(sweeps, start, i + 1, mid + sweeps[i] / 2.0)
  }

  /** `centerOnSegmentMarkerAngles`, shared by `ui/DecoratedDial.kt` and
      `ui/DialWithBadges.kt`, whose copies are identical. */
  function Centers(sweeps: seq<real>, gap: real): (r: seq<real>)
    ensures |r| == |sweeps|
    ensures forall i :: 0 <= i < |r| ==>
              r[i] == Rem360(StartAngle(gap) + Prefix(sweeps, i) + sweeps[i] / 2.0)
  {
    assert sweeps[..0] == [];
    CentersFrom(sweeps, StartAngle(gap), 0, StartAngle(gap))
  }

  /** Where boundary `i` lies before the `% 360` reduction. */
  function Unwrapped(sweeps: seq<real>, gap: real, i: nat): real
    requires i <= |sweeps|
  {
    StartAngle(gap) + Prefix(sweeps, i)
  }

  /** Each centre is, before reduction, the midpoint of the two boundaries of
      its segment, and each boundary is the reduced unwrapped boundary. */
  lemma CentersAreMidpoints(sweeps: seq<real>, gap: real, i: nat)
    requires i < |sweeps|
    ensures Centers(sweeps, gap)[i] ==
              Rem360((Unwrapped(sweeps, gap, i) + Unwrapped(sweeps, gap, i + 1)) / 2.0)
    ensures Boundaries(sweeps, gap)[i] == Rem360(Unwrapped(sweeps, gap, i))
  {
    assert sweeps[..0] == [];
    PrefixStep(sweeps, i);
  }

  /** On a dial with `0 <= gap < 360` and non-negative sweeps every
      dividend of `% 360` is non-negative, so every boundary and centre is a
      proper angle in [0, 360). */
  lemma AnglesWithinTurn(sweeps: seq<real>, gap: real)
    requires 0.0 <= gap < Turn && AllNonNeg(sweeps)
    ensures forall i :: 0 <= i < |sweeps| + 1 ==> 0.0 <= Boundaries(sweeps, gap)[i] < Turn
    ensures forall i :: 0 <= i < |sweeps| ==> 0.0 <= Centers(sweeps, gap)[i] < Turn
  {
    assert sweeps[..0] == [];
    forall i | 0 <= i <= |sweeps|
      ensures 0.0 <= StartAngle(gap) + Prefix(sweeps, i)
    {
      PrefixAtMostSum(sweeps, i);
    }
  }

  /** The marker loop of `SegmentedSemiCircleWithMarkers` from index `i`:
      advance by a whole sweep, then record. */
  function EndMarkersFrom(sweeps: seq<real>, start: real, i: nat, current: real): (r: seq<real>)
    requires i <= |sweeps| && current == start + Prefix(sweeps, i)
    ensures |r| == |sweeps| - i
    ensures forall k :: 0 <= k < |r| ==> r[k] == Rem360(start + Prefix(sweeps, i + k + 1))
    decreases |sweeps| - i
  {
    if i == |sweeps| then []
    else
      PrefixStep(sweeps, i);
      [Rem360(current + sweeps[i])] + EndMarkersFrom(sweeps, start, i + 1, current + sweeps[i])
  }

  /** The markers of `SegmentedSemiCircleWithMarkers`: one per sweep. */
  function EndMarkers(sweeps: seq<real>, gap: real): (r: seq<real>)
    ensures |r| == |sweeps|
    ensures forall i :: 0 <= i < |r| ==> r[i] == Rem360(StartAngle(gap) + Prefix(sweeps, i + 1))
  {
    assert sweeps[..0] == [];
    EndMarkersFrom(sweeps, StartAngle(gap), 0, StartAngle(gap))
  }

  /** Each marker sits at the end of its segment, where the next one starts,
      not at its centre: the markers are the boundaries without the first. */
  lemma EndMarkersAreSegmentEnds(sweeps: seq<real>, gap: real)
    ensures EndMarkers(sweeps, gap) == Boundaries(sweeps, gap)[1..]
  {
    assert sweeps[..0] == [];
  }

  /** With the preview's scaling of positive times the last marker closes the
      dial at `270 + available / 2`, reduced. */
  lemma LastMarkerClosesDial(times: seq<real>, gap: real)
    requires |times| > 0 && Sum(times) > 0.0
    ensures var m := EndMarkers(Sweeps(times, AvailableAngle(gap)), gap);
            m[|m| - 1] == Rem360(270.0 + AvailableAngle(gap) / 2.0)
  {
    var s := Sweeps(times, AvailableAngle(gap));
    SweepsFillAvailable(times, AvailableAngle(gap));
    assert s[..|s|] == s;
  }

  /** One arc drawn by `SegmentedSemiCircle`. */
  datatype Arc<C> = Arc(color: C, start: real, sweep: real)

  /** `getOrNull(index) ?: Color.Gray`. */
  function ColorAt<C>(colors: seq<C>, i: nat, gray: C): (r: C)
    ensures i < |colors| ==> r == colors[i]
    ensures |colors| <= i ==> r == gray
  {
    if i < |colors| then colors[i] else gray
  }

  /** The arc loop from index `i`, with `current` the start of arc `i`. */
  function ArcsFrom<C>(sweeps: seq<real>, colors: seq<C>, gray: C, start: real, i: nat, current: real)
    : (r: seq<Arc<C>>)
    requires i <= |sweeps| && current == start + Prefix(sweeps, i)
    ensures |r| == |sweeps| - i
    ensures forall k :: 0 <= k < |r| ==>
              r[k] == Arc(ColorAt(colors, i + k, gray), start + Prefix(sweeps, i + k), sweeps[i + k])
    decreases |sweeps| - i
  {
    if i == |sweeps| then []
    else
      PrefixStep(sweeps, i);
      [Arc(ColorAt(colors, i, gray), current, sweeps[i])]
        + ArcsFrom(sweeps, colors, gray, start, i + 1, current + sweeps[i])
  }

  /** The arcs of `SegmentedSemiCircle`, one per sweep. */
  function Arcs<C>(sweeps: seq<real>, colors: seq<C>, gray: C, gap: real): (r: seq<Arc<C>>)
    ensures |r| == |sweeps|
    ensures forall i :: 0 <= i < |r| ==>
              r[i] == Arc(ColorAt(colors, i, gray), StartAngle(gap) + Prefix(sweeps, i), sweeps[i])
  {
    assert sweeps[..0] == [];
    ArcsFrom(sweeps, colors, gray, StartAngle(gap), 0, StartAngle(gap))
  }

  /** Arc `i` starts where the sweeps before it end, spans sweep `i`, and is
      drawn in colour `i` or gray; so the first arc starts the dial and each
      arc ends where the next begins. */
  lemma ArcsContiguous<C>(sweeps: seq<real>, colors: seq<C>, gray: C, gap: real, i: nat)
    requires i < |sweeps|
    ensures Arcs(sweeps, colors, gray, gap)[i] ==
              Arc(ColorAt(colors, i, gray), Unwrapped(sweeps, gap, i), sweeps[i])
    ensures i == 0 ==> Arcs(sweeps, colors, gray, gap)[i].start == StartAngle(gap)
    ensures i + 1 < |sweeps| ==>
              Arcs(sweeps, colors, gray, gap)[i].start + Arcs(sweeps, colors, gray, gap)[i].sweep
                == Arcs(sweeps, colors, gray, gap)[i + 1].start
  {
    assert sweeps[..0] == [];
    PrefixStep(sweeps, i);
  }

  /** With sweeps that fill the available angle the last arc ends at the end
      of the dial. */
  lemma ArcsFillDial<C>(sweeps: seq<real>, colors: seq<C>, gray: C, gap: real)
    requires |sweeps| > 0 && Sum(sweeps) == AvailableAngle(gap)
    ensures var last := Arcs(sweeps, colors, gray, gap)[|sweeps| - 1];
            last.start + last.sweep == StartAngle(gap) + AvailableAngle(gap)
  {
    var n := |sweeps| - 1;
    PrefixStep(sweeps, n);
    assert sweeps[..n + 1] == sweeps;
  }

  /** One `arcTo` of the border path. */
  datatype PathArc = PathArc(start: real, sweep: real)

  /** The border path: the outer arc over the whole dial, then the inner arc
      back the other way. */
  function BorderPath(gap: real): (r: seq<PathArc>)
    ensures |r| == 2
    ensures r[0].start == StartAngle(gap) && r[0].sweep == AvailableAngle(gap)
    ensures r[0].start + r[0].sweep == r[1].start
    ensures r[1].start + r[1].sweep == r[0].start
    ensures r[1].sweep == -r[0].sweep
  {
    var available := AvailableAngle(gap);
    [PathArc(270.0 - available / 2.0, available),
     PathArc(270.0 - available / 2.0 + available, -available)]
  }

  /** A segment badge: its angle and the whole seconds it shows. */
  datatype Badge = Badge(angle: real, seconds: int)

  /** `Badges` of `ui/DialWithBadges.kt`, drawn only when badges are visible:
      the segment centres zipped with the segment times, truncated. */
  function VisibleBadges(visible: bool, sweeps: seq<real>, times: seq<real>, gap: real)
    : (r: seq<Badge>)
    ensures !visible ==> r == []
    ensures visible ==> |r| == if |sweeps| < |times| then |sweeps| else |times|
    ensures forall i :: 0 <= i < |r| ==> r[i] == Badge(Centers(sweeps, gap)[i], Trunc(times[i]))
  {
    if !visible then []
    else
      var c := Centers(sweeps, gap);
      var n := if |c| < |times| then |c| else |times|;
      seq(n, i requires 0 <= i < n => Badge(c[i], Trunc(times[i])))
  }
}
