/** The dial's hand. Two preview dials (`CenteredSemiCircleWithMarkers.kt`
    and `DialWithHand.kt`, whose hand code is the same) refuse a
    non-positive total and clamp the time to the run before placing the
    hand; the two `DialHand` composables (`ui/DialHand.kt` and
    `DialHand.kt`) place it without a clamp, the older one with an
    `availableAngle` passed in separately from the gap. */
module DialHand {
  import opened Numerics
  import opened RealSeqs
  import opened DialGeometry

  /** `require(total > 0)` followed by the sweep scaling. */
  function CheckedSweeps(segments: seq<real>, gap: real): (r: Result<seq<real>>)
    ensures r.Err? <==> Sum(segments) <= 0.0
    ensures r.Err? ==> r.failure == IllegalArgument
    ensures r.Ok? ==> |r.value| == |segments| && Sum(r.value) == AvailableAngle(gap)
  {
    if Sum(segments) <= 0.0 then Err(IllegalArgument)
    else
      SweepsFillAvailable(segments, AvailableAngle(gap));
      Ok(Sweeps(segments, AvailableAngle(gap)))
  }

  /** The hand of the preview dials: the time is coerced into `[0, total]`
      and turned into degrees from the dial start at `available / total`
      degrees per second, so it is the unclamped hand of `ui/DialHand.kt`
      at the clamped time. A non-positive total fails the `require`. */
  function ClampedHand(segments: seq<real>, gap: real, t: real): (r: Result<real>)
    ensures r.Err? <==> Sum(segments) <= 0.0
    ensures r.Err? ==> r.failure == IllegalArgument
    ensures r.Ok? ==> r.value == HandAngle(Clamp(t, 0.0, Sum(segments)), Sum(segments), gap)
  {
    var total := Sum(segments);
    if total <= 0.0 then Err(IllegalArgument)
    else
      var c, a := Clamp(t, 0.0, total), AvailableAngle(gap);
      assert (c / total) * a == c * (a / total);
      Ok(StartAngle(gap) + c * DegreesPerSecond(segments, a))
  }

  /** Multiplying by a non-negative factor keeps order. */
  lemma MulMonotone(a: real, b: real, k: real)
    requires a <= b && 0.0 <= k
    ensures a * k <= b * k
  {
    assert (b - a) * k >= 0.0;
  }

  /** Whatever the time, the clamped hand stays on the dial, between its
      start and its end. */
  lemma ClampedHandWithinDial(segments: seq<real>, gap: real, t: real)
    requires Sum(segments) > 0.0 && gap <= Turn
    ensures StartAngle(gap) <= ClampedHand(segments, gap, t).value <= StartAngle(gap) + AvailableAngle(gap)
  {
    var total := Sum(segments);
    var k := DegreesPerSecond(segments, AvailableAngle(gap));
    var c := Clamp(t, 0.0, total);
    assert 0.0 <= k;
    MulMonotone(0.0, c, k);
    MulMonotone(c, total, k);
    assert total * k == AvailableAngle(gap);
  }

  /** A time at or before zero puts the hand at the dial start; a time at or
      past the total puts it at the dial end. */
  lemma ClampedHandEnds(segments: seq<real>, gap: real, t: real)
    requires Sum(segments) > 0.0
    ensures t <= 0.0 ==> ClampedHand(segments, gap, t).value == StartAngle(gap)
    ensures Sum(segments) <= t ==>
              ClampedHand(segments, gap, t).value == StartAngle(gap) + AvailableAngle(gap)
  {
    var total := Sum(segments);
    assert total * DegreesPerSecond(segments, AvailableAngle(gap)) == AvailableAngle(gap);
  }

  /** A later time never puts the hand further back. */
  lemma ClampedHandMonotone(segments: seq<real>, gap: real, t1: real, t2: real)
    requires Sum(segments) > 0.0 && gap <= Turn && t1 <= t2
    ensures ClampedHand(segments, gap, t1).value <= ClampedHand(segments, gap, t2).value
  {
    var total := Sum(segments);
    var k := DegreesPerSecond(segments, AvailableAngle(gap));
    assert 0.0 <= k;
    MulMonotone(Clamp(t1, 0.0, total), Clamp(t2, 0.0, total), k);
  }

  /** During a run the hand lies on the boundary where segment `i` starts
      exactly when the time is the total of the segments before it. */
  lemma ClampedHandOnBoundary(segments: seq<real>, gap: real, t: real, i: nat)
    requires Sum(segments) > 0.0 && gap != Turn && i <= |segments|
    requires 0.0 <= t <= Sum(segments)
    ensures ClampedHand(segments, gap, t).value ==
              StartAngle(gap) + Prefix(Sweeps(segments, AvailableAngle(gap)), i)
            <==> t == Prefix(segments, i)
  {
    var k := DegreesPerSecond(segments, AvailableAngle(gap));
    SweepPrefix(segments, AvailableAngle(gap), i);
    assert k != 0.0;
    ShiftCancel(ClampedHand(segments, gap, t).value, Prefix(Sweeps(segments, AvailableAngle(gap)), i),
                StartAngle(gap), t, Prefix(segments, i), k);
  }

  /** Two points on a line through `start` with non-zero slope `k` meet
      only at the same parameter. */
  lemma ShiftCancel(h: real, b: real, start: real, t: real, p: real, k: real)
    requires h == start + t * k && b == p * k && k != 0.0
    ensures h == start + b <==> t == p
  {
    if h == start + b {
      assert (t - p) * k == 0.0;
    }
  }

  /** `ui/DialHand.kt`: `270 + gap / 2 + (t / total) * (360 - gap) - 180`,
      with no clamp; a zero total would divide by zero. */
  function HandAngle(t: real, total: real, gap: real): (r: real)
    requires total != 0.0
    ensures t == 0.0 ==> r == StartAngle(gap)
    ensures t == total ==> r == StartAngle(gap) + AvailableAngle(gap)
  {
    270.0 + gap / 2.0 + (t / total) * AvailableAngle(gap) - 180.0
  }

  /** The unclamped hand starts at the dial start and reaches the dial end
      at the total. */
  lemma HandAngleEnds(total: real, gap: real)
    requires total != 0.0
    ensures HandAngle(0.0, total, gap) == StartAngle(gap)
    ensures HandAngle(total, total, gap) == StartAngle(gap) + AvailableAngle(gap)
  {
  }

  /** Without a clamp a time outside the run puts the hand off the dial:
      before the start for a negative time, past the end after the total. */
  lemma HandAngleExtrapolates(t: real, total: real, gap: real)
    requires total > 0.0 && gap < Turn
    ensures t < 0.0 ==> HandAngle(t, total, gap) < StartAngle(gap)
    ensures total < t ==> StartAngle(gap) + AvailableAngle(gap) < HandAngle(t, total, gap)
  {
    var a := AvailableAngle(gap);
    assert HandAngle(t, total, gap) == StartAngle(gap) + (t / total) * a;
    if t < 0.0 {
      assert t / total < 0.0;
      assert (t / total) * a < 0.0;
    }
    if total < t {
      assert 1.0 < t / total;
      assert (t / total - 1.0) * a > 0.0;
    }
  }

  /** Within the run the unclamped hand agrees with the clamped one. */
  lemma HandAngleAgreesWithinRun(segments: seq<real>, gap: real, t: real)
    requires Sum(segments) > 0.0 && 0.0 <= t <= Sum(segments)
    ensures HandAngle(t, Sum(segments), gap) == ClampedHand(segments, gap, t).value
  {
    var total, a := Sum(segments), AvailableAngle(gap);
    assert (t / total) * a == t * (a / total);
  }

  /** `DialHand.kt`: `270 + gap / 2 + (t / total) * availableAngle - 180`,
      where the caller passes the available angle apart from the gap. */
  function GapHandAngle(t: real, total: real, gap: real, available: real): (r: real)
    requires total != 0.0
    ensures t == 0.0 ==> r == StartAngle(gap)
    ensures available == AvailableAngle(gap) ==> r == HandAngle(t, total, gap)
  {
    270.0 + gap / 2.0 + (t / total) * available - 180.0
  }

  /** At time zero the older hand is at the dial start whatever angle it is
      given; at the total it reaches the dial end exactly when the angle it
      is given is `360 - gap`. */
  lemma GapHandAngleEnds(total: real, gap: real, available: real)
    requires total != 0.0
    ensures GapHandAngle(0.0, total, gap, available) == StartAngle(gap)
    ensures GapHandAngle(total, total, gap, available) == StartAngle(gap) + AvailableAngle(gap)
            <==> available == AvailableAngle(gap)
  {
  }

  /** The older hand is the newer one whenever it is given `360 - gap`. */
  lemma GapHandAngleIsHandAngle(t: real, total: real, gap: real)
    requires total != 0.0
    ensures GapHandAngle(t, total, gap, AvailableAngle(gap)) == HandAngle(t, total, gap)
  {
  }

  /** `ui/DialHand.kt`: the radius is half the canvas and the hand
      overshoots it by `overshoot` of the radius. */
  function HandLength(size: real, overshoot: real): (r: real)
    ensures r == (size / 2.0) * (1.0 + overshoot)
    ensures 0.0 <= size && 0.0 <= overshoot ==> size / 2.0 <= r
  {
    var radius := size / 2.0;
    radius + radius * overshoot
  }

  /** `DialHand.kt`: the same, with the radius measured to the inside of
      the ring. */
  function RingHandLength(size: real, ring: real, overshoot: real): (r: real)
    ensures r == ((size - ring) / 2.0) * (1.0 + overshoot)
    ensures ring <= size && 0.0 <= overshoot ==> (size - ring) / 2.0 <= r
  {
    var radius := (size - ring) / 2.0;
    radius + radius * overshoot
  }

  /** With no ring the older hand is as long as the newer one. */
  lemma RingHandLengthWithoutRing(size: real, overshoot: real)
    ensures RingHandLength(size, 0.0, overshoot) == HandLength(size, overshoot)
  {
  }

  /** The preview dials draw the hand out to the ring's centre line:
      half the canvas less the padding plus half the ring, so the ring's
      thickness cancels and only half the border is left off. */
  function RingCentreRadius(size: real, ring: real, border: real): (r: real)
    ensures r == size / 2.0 - border / 2.0
  {
    var padding := ring / 2.0 + border / 2.0;
    (size / 2.0 - padding) + ring / 2.0
  }
}
