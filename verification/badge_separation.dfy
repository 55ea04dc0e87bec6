/** The badge placement of `DialWithBadges.kt` (the version in the app's root
    package): each segment's badge starts at its segment's centre, the
    centres are sorted, and one greedy forward pass pushes every badge that
    sits closer than `minSep` degrees behind the previous one to exactly
    `minSep` ahead of it. `minSep` is the angle two badges subtend on the
    ring, `2 * asin(badgeRadius / ringRadius)` in degrees, taken here as a
    parameter.

    The pass as written compares the first badge with itself a full turn
    back, sees no gap, and so always pushes it; and the badges it returns are
    in angle order but are labelled in segment order. Both are modelled as
    written, and beside them the corrected placement the rest of the model
    relies on. */
module BadgeSeparation {
  import opened Numerics
  import opened RealSeqs
  import opened DialGeometry
  import opened Collections

  /** Lines 138-139: how far `a` lies ahead of `prev`, going round the dial
      in the drawing direction, as an angle in `[0, 360)`. */
  function NormDiff(a: real, prev: real): (r: real)
    ensures 0.0 <= r < Turn
    ensures SameDirection(r, a - prev)
  {
    var d := Rem360(a - prev);
    if d < 0.0 then
      SameDirectionShift(d, 1);
      SameDirectionTrans(d + Turn, d, a - prev);
      d + Turn
    else d
  }

  /** Every entry is below a full turn. */
  predicate BelowTurn(s: seq<real>) {
    forall k :: 0 <= k < |s| ==> s[k] < Turn
  }

  /** Every entry is an angle in `[0, 360)`. */
  predicate ProperAngles(s: seq<real>) {
    forall k :: 0 <= k < |s| ==> 0.0 <= s[k] < Turn
  }

  /** Every entry is at least `minSep` ahead of the one before it. */
  predicate Spaced(s: seq<real>, minSep: real) {
    forall k :: 1 <= k < |s| ==> minSep <= NormDiff(s[k], s[k - 1])
  }

  /** Lines 137-144 for one badge: keep it if it is at least `minSep` ahead
      of the previous badge, otherwise put it `minSep` ahead of that one,
      reduced by a turn once it reaches 360. */
  function Place(a: real, prev: real, minSep: real): (r: real)
    ensures minSep <= NormDiff(a, prev) ==> r == a
    ensures a < Turn && prev < Turn && minSep < Turn ==> r < Turn
  {
    if NormDiff(a, prev) < minSep then
      var pushed := prev + minSep;
      if pushed >= Turn then pushed - Turn else pushed
    else a
  }

  /** A badge is kept exactly when it is far enough ahead already;
      otherwise it lands exactly `minSep` ahead, so after placing it is
      always at least `minSep` ahead of the previous badge. */
  lemma PlaceSeparates(a: real, prev: real, minSep: real)
    requires 0.0 <= minSep < Turn
    ensures minSep <= NormDiff(a, prev) ==> Place(a, prev, minSep) == a
    ensures NormDiff(a, prev) < minSep ==> NormDiff(Place(a, prev, minSep), prev) == minSep
    ensures minSep <= NormDiff(Place(a, prev, minSep), prev)
  {
    if NormDiff(a, prev) < minSep {
      var p := Place(a, prev, minSep);
      var d := NormDiff(p, prev);
      if prev + minSep >= Turn {
        assert p - prev == minSep + (-1) as real * Turn;
        SameDirectionShift(minSep, -1);
      } else {
        assert p - prev == minSep + 0 as real * Turn;
        SameDirectionShift(minSep, 0);
      }
      SameDirectionTrans(d, p - prev, minSep);
      SameDirectionWithinTurn(d, minSep);
    }
  }

  /** A placed badge stays below a full turn when its inputs do, and stays
      non-negative when they are. */
  lemma PlaceWithinTurn(a: real, prev: real, minSep: real)
    ensures a < Turn && prev < Turn && minSep < Turn ==> Place(a, prev, minSep) < Turn
    ensures 0.0 <= a && 0.0 <= prev && 0.0 <= minSep ==> 0.0 <= Place(a, prev, minSep)
  {
  }

  /** The loop of lines 136-148 from a given previous angle. */
  function Pass(angles: seq<real>, prev: real, minSep: real): (r: seq<real>)
    ensures |r| == |angles|
    decreases |angles|
  {
    if |angles| == 0 then []
    else
      var a := Place(angles[0], prev, minSep);
      [a] + Pass(angles[1..], a, minSep)
  }

  /** Every badge the pass places is at least `minSep` ahead of the one
      before it, the first of them ahead of the starting angle. */
  lemma {:induction false} PassSeparated(angles: seq<real>, prev: real, minSep: real)
    requires 0.0 <= minSep < Turn
    ensures |angles| > 0 ==> minSep <= NormDiff(Pass(angles, prev, minSep)[0], prev)
    ensures Spaced(Pass(angles, prev, minSep), minSep)
    decreases |angles|
  {
    if |angles| > 0 {
      var a := Place(angles[0], prev, minSep);
      var r := Pass(angles, prev, minSep);
      var rest := Pass(angles[1..], a, minSep);
      assert r == [a] + rest;
      PlaceSeparates(angles[0], prev, minSep);
      PassSeparated(angles[1..], a, minSep);
      forall k | 1 <= k < |angles|
        ensures minSep <= NormDiff(r[k], r[k - 1])
      {
        assert r[k] == rest[k - 1];
        if k > 1 {
          assert r[k - 1] == rest[k - 2];
        }
      }
    }
  }

  /** Badges below a full turn, a start below a full turn and a separation
      below a full turn give placed badges below a full turn; with
      everything non-negative as well they are all proper angles. */
  lemma {:induction false} PassWithinTurn(angles: seq<real>, prev: real, minSep: real)
    requires BelowTurn(angles) && prev < Turn && minSep < Turn
    ensures BelowTurn(Pass(angles, prev, minSep))
    ensures ProperAngles(angles) && 0.0 <= prev && 0.0 <= minSep ==>
              ProperAngles(Pass(angles, prev, minSep))
    decreases |angles|
  {
    if |angles| > 0 {
      var a := Place(angles[0], prev, minSep);
      var r := Pass(angles, prev, minSep);
      PlaceWithinTurn(angles[0], prev, minSep);
      PassWithinTurn(angles[1..], a, minSep);
      assert forall k :: 1 <= k < |angles| ==> r[k] == Pass(angles[1..], a, minSep)[k - 1];
    }
  }

  /** Badges that are already far enough apart, starting with the first
      ahead of the starting angle, are left where they are. */
  lemma {:induction false} PassKeepsSeparated(angles: seq<real>, prev: real, minSep: real)
    requires |angles| > 0 ==> minSep <= NormDiff(angles[0], prev)
    requires Spaced(angles, minSep)
    ensures Pass(angles, prev, minSep) == angles
    decreases |angles|
  {
    if |angles| > 0 {
      var rest := angles[1..];
      assert forall k :: 1 <= k < |rest| ==> rest[k] == angles[k + 1] && rest[k - 1] == angles[k];
      PassKeepsSeparated(rest, angles[0], minSep);
      assert angles == [angles[0]] + rest;
    }
  }

  /** Lines 132-150 once the centres are sorted: the pass starts a full
      turn behind the first of them, and `first()` throws on an empty list. */
  function AdjustSorted(sorted: seq<real>, minSep: real): (r: Result<seq<real>>)
    ensures r.Err? <==> |sorted| == 0
    ensures r.Err? ==> r.failure == NoSuchElement
    ensures r.Ok? ==> |r.value| == |sorted|
  {
    if |sorted| == 0 then Err(NoSuchElement)
    else Ok(Pass(sorted, sorted[0] - Turn, minSep))
  }

  /** After the pass as written, consecutive badges are at least `minSep`
      apart; below a full turn they go in, below a full turn they come out;
      and the first badge, which sees itself a full turn back at no
      distance, is always moved, to `minSep - 360` past where it was. */
  lemma AdjustSortedProperties(sorted: seq<real>, minSep: real)
    requires |sorted| > 0 && 0.0 <= minSep < Turn
    ensures Spaced(AdjustSorted(sorted, minSep).value, minSep)
    ensures ProperAngles(sorted) ==> BelowTurn(AdjustSorted(sorted, minSep).value)
    ensures ProperAngles(sorted) && 0.0 < minSep ==>
              AdjustSorted(sorted, minSep).value[0] == sorted[0] - Turn + minSep
  {
    PassSeparated(sorted, sorted[0] - Turn, minSep);
    if ProperAngles(sorted) {
      PassWithinTurn(sorted, sorted[0] - Turn, minSep);
      assert NormDiff(sorted[0], sorted[0] - Turn) == 0.0;
    }
  }

  /** `calculateAdjustedMarkerAngles` as written: the segment centres,
      sorted, then the pass. */
  function AdjustedMarkerAngles(sweeps: seq<real>, gap: real, minSep: real): (r: Result<seq<real>>)
    ensures r.Err? <==> |sweeps| == 0
    ensures r.Err? ==> r.failure == NoSuchElement
    ensures r.Ok? ==> |r.value| == |sweeps|
  {
    AdjustSorted(Sorted(Centers(sweeps, gap)), minSep)
  }

  /** On a proper dial the angles as written are spaced and below a full
      turn, but the first is moved off its centre by `minSep - 360`. */
  lemma AdjustedMarkerAnglesProperties(sweeps: seq<real>, gap: real, minSep: real)
    requires |sweeps| > 0 && 0.0 <= gap < Turn && AllNonNeg(sweeps) && 0.0 < minSep < Turn
    ensures Spaced(AdjustedMarkerAngles(sweeps, gap, minSep).value, minSep)
    ensures BelowTurn(AdjustedMarkerAngles(sweeps, gap, minSep).value)
    ensures AdjustedMarkerAngles(sweeps, gap, minSep).value[0] ==
              Sorted(Centers(sweeps, gap))[0] - Turn + minSep
  {
    SortedCentresWithinTurn(sweeps, gap);
    AdjustSortedProperties(Sorted(Centers(sweeps, gap)), minSep);
  }

  /** One segment of 330 degrees on a dial with a 30 degree gap is centred
      at 270. */
  lemma OneSegmentCentre()
    ensures Centers([330.0], 30.0) == [270.0]
  {
    var s := [330.0];
    assert s[..0] == [];
    assert StartAngle(30.0) == 105.0;
    Rem360InTurn(270.0, 0);
  }

  /** The smallest case: one segment filling a dial with a 30 degree gap has
      its centre at 270, yet with a 10 degree separation its badge is drawn
      at -80. */
  lemma FirstBadgeCounterexample()
    ensures Centers([330.0], 30.0) == [270.0]
    ensures AdjustedMarkerAngles([330.0], 30.0, 10.0) == Ok([-80.0])
  {
    OneSegmentCentre();
    assert Sorted([270.0]) == [270.0];
    Rem360InTurn(360.0, 1);
    assert NormDiff(270.0, -90.0) == 0.0;
    assert Place(270.0, -90.0, 10.0) == -80.0;
    assert [270.0][1..] == [];
    assert Pass([270.0], -90.0, 10.0) == [-80.0];
  }

  /** The pass with the first badge kept at its centre and used as the
      starting angle for the rest. */
  function Separate(sorted: seq<real>, minSep: real): (r: seq<real>)
    ensures |r| == |sorted|
    ensures |sorted| > 0 ==> r[0] == sorted[0]
  {
    if |sorted| == 0 then [] else [sorted[0]] + Pass(sorted[1..], sorted[0], minSep)
  }

  /** The corrected pass, which keeps the first badge, puts every later
      badge at least `minSep` ahead of the one before it. */
  lemma SeparateSpaced(sorted: seq<real>, minSep: real)
    requires 0.0 <= minSep < Turn
    ensures Spaced(Separate(sorted, minSep), minSep)
  {
    if |sorted| > 0 {
      var head, rest := sorted[0], sorted[1..];
      var r := Separate(sorted, minSep);
      var p := Pass(rest, head, minSep);
      assert r == [head] + p;
      PassSeparated(rest, head, minSep);
      forall k | 1 <= k < |sorted|
        ensures minSep <= NormDiff(r[k], r[k - 1])
      {
        assert r[k] == p[k - 1];
        if k > 1 {
          assert r[k - 1] == p[k - 2];
        }
      }
    }
  }

  /** Badges that are already far enough apart are left alone. */
  lemma SeparateLeavesSpaced(sorted: seq<real>, minSep: real)
    requires Spaced(sorted, minSep)
    ensures Separate(sorted, minSep) == sorted
  {
    if |sorted| > 0 {
      var head, rest := sorted[0], sorted[1..];
      assert forall k :: 1 <= k < |rest| ==> rest[k] == sorted[k + 1] && rest[k - 1] == sorted[k];
      PassKeepsSeparated(rest, head, minSep);
      assert sorted == [head] + rest;
    }
  }

  /** On a proper dial the corrected pass returns proper angles. */
  lemma SeparateWithinTurn(sorted: seq<real>, minSep: real)
    requires 0.0 <= minSep < Turn && ProperAngles(sorted)
    ensures ProperAngles(Separate(sorted, minSep))
  {
    if |sorted| > 0 {
      var head, rest := sorted[0], sorted[1..];
      assert forall k :: 0 <= k < |rest| ==> rest[k] == sorted[k + 1];
      PassWithinTurn(rest, head, minSep);
      var r := Separate(sorted, minSep);
      assert r == [head] + Pass(rest, head, minSep);
    }
  }

  /** The corrected `calculateAdjustedMarkerAngles`: no badge is moved
      unless it is too close to the one before it, and no list is too short
      to place. */
  function AdjustedKeepingFirst(sweeps: seq<real>, gap: real, minSep: real): (r: seq<real>)
    ensures |r| == |sweeps|
    ensures |sweeps| > 0 ==> r[0] == Sorted(Centers(sweeps, gap))[0]
  {
    Separate(Sorted(Centers(sweeps, gap)), minSep)
  }

  /** On the one-segment dial above the corrected pass leaves the badge at
      its centre. */
  lemma FirstBadgeCorrected()
    ensures AdjustedKeepingFirst([330.0], 30.0, 10.0) == [270.0]
  {
    OneSegmentCentre();
    assert Sorted([270.0]) == [270.0];
  }

  /** On a proper dial the sorted centres are proper angles. */
  lemma SortedCentresWithinTurn(sweeps: seq<real>, gap: real)
    requires 0.0 <= gap < Turn && AllNonNeg(sweeps)
    ensures ProperAngles(Sorted(Centers(sweeps, gap)))
  {
    var c := Centers(sweeps, gap);
    var sorted := Sorted(c);
    AnglesWithinTurn(sweeps, gap);
    SortedMembers(c);
    forall k | 0 <= k < |sorted|
      ensures 0.0 <= sorted[k] < Turn
    {
      var j :| 0 <= j < |c| && c[j] == sorted[k];
    }
  }

  /** On a proper dial the corrected angles are proper angles, the smallest
      centre keeps its place, and consecutive badges are `minSep` apart. */
  lemma AdjustedKeepingFirstProperties(sweeps: seq<real>, gap: real, minSep: real)
    requires 0.0 <= gap < Turn && AllNonNeg(sweeps) && 0.0 <= minSep < Turn
    ensures ProperAngles(AdjustedKeepingFirst(sweeps, gap, minSep))
    ensures |sweeps| > 0 ==> AdjustedKeepingFirst(sweeps, gap, minSep)[0] == Sorted(Centers(sweeps, gap))[0]
    ensures Spaced(AdjustedKeepingFirst(sweeps, gap, minSep), minSep)
  {
    SortedCentresWithinTurn(sweeps, gap);
    SeparateSpaced(Sorted(Centers(sweeps, gap)), minSep);
    SeparateWithinTurn(Sorted(Centers(sweeps, gap)), minSep);
  }

  /** A badge before placing: the angle it starts from and the segment
      time it will show. */
  datatype Labelled = Labelled(angle: real, time: real)

  /** The segment centres zipped with the segment times. */
  function Pairs(sweeps: seq<real>, times: seq<real>, gap: real): (r: seq<Labelled>)
    ensures |r| == if |sweeps| < |times| then |sweeps| else |times|
    ensures forall i :: 0 <= i < |r| ==> r[i] == Labelled(Centers(sweeps, gap)[i], times[i])
  {
    var c := Centers(sweeps, gap);
    var n := if |c| < |times| then |c| else |times|;
    seq(n, i requires 0 <= i < n => Labelled(c[i], times[i]))
  }

  /** The badges as written (lines 89-109): the adjusted angles, which come
      out in angle order, zipped with the times, which are in segment
      order; each badge shows its time truncated. */
  function Badges(sweeps: seq<real>, times: seq<real>, gap: real, minSep: real): (r: Result<seq<Badge>>)
    ensures r.Err? <==> |sweeps| == 0
    ensures r.Ok? ==> |r.value| == if |sweeps| < |times| then |sweeps| else |times|
    ensures r.Ok? ==> forall i :: 0 <= i < |r.value| ==>
              r.value[i] == Badge(AdjustedMarkerAngles(sweeps, gap, minSep).value[i], Trunc(times[i]))
  {
    var adjusted := AdjustedMarkerAngles(sweeps, gap, minSep);
    if adjusted.Err? then Err(adjusted.failure)
    else
      var a := adjusted.value;
      var n := if |a| < |times| then |a| else |times|;
      Ok(seq(n, i requires 0 <= i < n => Badge(a[i], Trunc(times[i]))))
  }

  /** The centres of a dial with segments of 300 and 30 degrees and a
      30 degree gap. */
  lemma TwoSegmentCentres()
    ensures Centers([300.0, 30.0], 30.0) == [255.0, 60.0]
  {
    var s := [300.0, 30.0];
    assert s[..0] == [] && s[..1] == [300.0];
    assert [300.0][1..] == [];
    assert StartAngle(30.0) == 105.0;
    Rem360InTurn(255.0, 0);
    Rem360InTurn(420.0, 1);
  }

  /** Sorting the two centres swaps them. */
  lemma SortTwoCentres()
    ensures Sorted([255.0, 60.0]) == [60.0, 255.0]
  {
    assert [255.0, 60.0][1..] == [60.0];
    assert [60.0][1..] == [];
    assert Sorted([60.0]) == [60.0];
  }

  /** The first sorted centre, 60, seen from a full turn behind itself, is
      pushed to -290. */
  lemma PlaceFirstOfTwo()
    ensures Place(60.0, -300.0, 10.0) == -290.0
  {
    Rem360InTurn(360.0, 1);
  }

  /** The second sorted centre, 255, is far enough ahead of -290 to stay. */
  lemma PlaceSecondOfTwo()
    ensures Place(255.0, -290.0, 10.0) == 255.0
  {
    Rem360InTurn(545.0, 1);
  }

  /** The pass as written over the two sorted centres. */
  lemma PassOfTwo()
    ensures Pass([60.0, 255.0], -300.0, 10.0) == [-290.0, 255.0]
  {
    PlaceFirstOfTwo();
    PlaceSecondOfTwo();
    assert [60.0, 255.0][1..] == [255.0] && [255.0][1..] == [];
  }

  /** The pass as written over the two sorted centres moves the first. */
  lemma PassTwoCentres()
    ensures AdjustedMarkerAngles([300.0, 30.0], 30.0, 10.0) == Ok([-290.0, 255.0])
  {
    TwoSegmentCentres();
    SortTwoCentres();
    PassOfTwo();
    assert AdjustSorted([60.0, 255.0], 10.0) == Ok(Pass([60.0, 255.0], -300.0, 10.0));
  }

  /** With two segments the badges as written pair the first adjusted
      angle with the first time and the second with the second. */
  lemma BadgesOfTwo(sweeps: seq<real>, times: seq<real>, gap: real, minSep: real, a0: real, a1: real)
    requires AdjustedMarkerAngles(sweeps, gap, minSep) == Ok([a0, a1]) && |times| == 2
    ensures Badges(sweeps, times, gap, minSep) == Ok([Badge(a0, Trunc(times[0])), Badge(a1, Trunc(times[1]))])
  {
    var a := AdjustedMarkerAngles(sweeps, gap, minSep).value;
    assert |sweeps| == |a| == 2;
    var b := Badges(sweeps, times, gap, minSep);
    assert b.Ok?;
    var r := b.value;
    assert |r| == 2;
    assert r[0] == Badge(a[0], Trunc(times[0])) && r[1] == Badge(a[1], Trunc(times[1]));
    assert r == [Badge(a0, Trunc(times[0])), Badge(a1, Trunc(times[1]))];
  }

  /** Two segments of 300 and 30 degrees (10 and 1 seconds) on a dial with
      a 30 degree gap are centred at 255 and 60. Sorting puts the second
      first, and zipping in segment order then gives its label "1" the
      angle 255, the first segment's centre, while the first segment's "10"
      goes to -290, which is 70 degrees, beside the second segment. */
  lemma BadgeLabelCounterexample()
    ensures Centers([300.0, 30.0], 30.0) == [255.0, 60.0]
    ensures Badges([300.0, 30.0], [10.0, 1.0], 30.0, 10.0) == Ok([Badge(-290.0, 10), Badge(255.0, 1)])
  {
    TwoSegmentCentres();
    PassTwoCentres();
    BadgesOfTwo([300.0, 30.0], [10.0, 1.0], 30.0, 10.0, -290.0, 255.0);
    assert Trunc(10.0) == 10 && Trunc(1.0) == 1;
  }

  /** Candidates ordered by angle. */
  predicate AngleOrdered(s: seq<Labelled>) {
    forall i, j :: 0 <= i < j < |s| ==> s[i].angle <= s[j].angle
  }

  /** Putting a candidate with the least angle in front keeps the order. */
  lemma ConsAngleOrdered(h: Labelled, t: seq<Labelled>)
    requires AngleOrdered(t)
    requires forall j :: 0 <= j < |t| ==> h.angle <= t[j].angle
    ensures AngleOrdered([h] + t)
  {
    var r := [h] + t;
    forall i, j | 0 <= i < j < |r|
      ensures r[i].angle <= r[j].angle
    {
      assert r[j] == t[j - 1];
      if i > 0 {
        assert r[i] == t[i - 1];
      }
    }
  }

  /** Inserting a candidate into an angle-ordered list. */
  function InsertByAngle(x: Labelled, s: seq<Labelled>): (r: seq<Labelled>)
    requires AngleOrdered(s)
    ensures AngleOrdered(r)
    ensures multiset(r) == multiset(s) + multiset{x}
    ensures |r| == |s| + 1
  {
    if |s| == 0 then [x]
    else if x.angle <= s[0].angle then
      ConsAngleOrdered(x, s);
      [x] + s
    else
      var tail := s[1..];
      assert s == [s[0]] + tail;
      var t := InsertByAngle(x, tail);
      forall j | 0 <= j < |t|
        ensures s[0].angle <= t[j].angle
      {
        assert t[j] in multiset(t);
        if t[j] != x {
          assert t[j] in multiset(tail);
          var k :| 0 <= k < |tail| && tail[k] == t[j];
          assert s[k + 1] == t[j];
        }
      }
      ConsAngleOrdered(s[0], t);
      [s[0]] + t
  }

  /** The candidates sorted by angle, each keeping its time. */
  function SortByAngle(s: seq<Labelled>): (r: seq<Labelled>)
    ensures AngleOrdered(r)
    ensures multiset(r) == multiset(s)
    ensures |r| == |s|
  {
    if |s| == 0 then []
    else
      assert s == [s[0]] + s[1..];
      InsertByAngle(s[0], SortByAngle(s[1..]))
  }

  /** The angles of a list of candidates. */
  function AnglesOf(s: seq<Labelled>): (r: seq<real>)
    ensures |r| == |s|
    ensures forall i :: 0 <= i < |s| ==> r[i] == s[i].angle
  {
    seq(|s|, i requires 0 <= i < |s| => s[i].angle)
  }

  /** The corrected badges: each centre is sorted together with its own
      segment's time, and the corrected pass places them. */
  function SeparatedBadges(sweeps: seq<real>, times: seq<real>, gap: real, minSep: real): (r: seq<Badge>)
    ensures |r| == if |sweeps| < |times| then |sweeps| else |times|
  {
    var sorted := SortByAngle(Pairs(sweeps, times, gap));
    var angles := Separate(AnglesOf(sorted), minSep);
    seq(|sorted|, i requires 0 <= i < |sorted| => Badge(angles[i], Trunc(sorted[i].time)))
  }

  /** When no badge needs moving, the corrected badges are the sorted
      candidates, each at its own angle with its own time. */
  lemma SeparatedBadgesUnmoved(sweeps: seq<real>, times: seq<real>, gap: real, minSep: real)
    requires 0.0 <= minSep < Turn
    requires Spaced(AnglesOf(SortByAngle(Pairs(sweeps, times, gap))), minSep)
    ensures var sorted := SortByAngle(Pairs(sweeps, times, gap));
            forall j :: 0 <= j < |sorted| ==>
              SeparatedBadges(sweeps, times, gap, minSep)[j] == Badge(sorted[j].angle, Trunc(sorted[j].time))
  {
    SeparateLeavesSpaced(AnglesOf(SortByAngle(Pairs(sweeps, times, gap))), minSep);
  }

  /** When no badge needs moving, every corrected badge is a segment's own
      badge, at that segment's centre and showing that segment's time. */
  lemma SeparatedBadgesOwnSegment(sweeps: seq<real>, times: seq<real>, gap: real, minSep: real, j: nat)
    requires 0.0 <= minSep < Turn
    requires Spaced(AnglesOf(SortByAngle(Pairs(sweeps, times, gap))), minSep)
    requires j < |SeparatedBadges(sweeps, times, gap, minSep)|
    ensures exists i :: 0 <= i < |sweeps| && i < |times| &&
              SeparatedBadges(sweeps, times, gap, minSep)[j] == Badge(Centers(sweeps, gap)[i], Trunc(times[i]))
  {
    var pairs := Pairs(sweeps, times, gap);
    var sorted := SortByAngle(pairs);
    SeparatedBadgesUnmoved(sweeps, times, gap, minSep);
    assert sorted[j] in multiset(pairs);
    var i :| 0 <= i < |pairs| && pairs[i] == sorted[j];
  }

  /** When no badge needs moving, every segment that has a time gets its
      own badge, at its centre and showing its time. */
  lemma SeparatedBadgesEverySegment(sweeps: seq<real>, times: seq<real>, gap: real, minSep: real, i: nat)
    requires 0.0 <= minSep < Turn
    requires Spaced(AnglesOf(SortByAngle(Pairs(sweeps, times, gap))), minSep)
    requires i < |sweeps| && i < |times|
    ensures Badge(Centers(sweeps, gap)[i], Trunc(times[i])) in SeparatedBadges(sweeps, times, gap, minSep)
  {
    var pairs := Pairs(sweeps, times, gap);
    var sorted := SortByAngle(pairs);
    SeparatedBadgesUnmoved(sweeps, times, gap, minSep);
    assert pairs[i] in multiset(sorted);
    var j :| 0 <= j < |sorted| && sorted[j] == pairs[i];
    assert SeparatedBadges(sweeps, times, gap, minSep)[j] == Badge(Centers(sweeps, gap)[i], Trunc(times[i]));
  }

  /** Whatever the corrected pass does to the angles, badge `j` shows the
      time of the segment whose centre was sorted into place `j`, and sits
      where the pass put that centre. */
  lemma SeparatedBadgesKeepLabels(sweeps: seq<real>, times: seq<real>, gap: real, minSep: real, j: nat)
    requires j < |SeparatedBadges(sweeps, times, gap, minSep)|
    ensures var sorted := SortByAngle(Pairs(sweeps, times, gap));
            exists i :: 0 <= i < |sweeps| && i < |times| &&
              sorted[j] == Labelled(Centers(sweeps, gap)[i], times[i]) &&
              SeparatedBadges(sweeps, times, gap, minSep)[j] ==
                Badge(Separate(AnglesOf(sorted), minSep)[j], Trunc(times[i]))
  {
    var pairs := Pairs(sweeps, times, gap);
    var sorted := SortByAngle(pairs);
    var i := PermutedIndex(sorted, pairs, j);
    assert sorted[j] == Labelled(Centers(sweeps, gap)[i], times[i]);
    assert SeparatedBadges(sweeps, times, gap, minSep)[j] ==
             Badge(Separate(AnglesOf(sorted), minSep)[j], Trunc(times[i]));
  }

  /** Every segment that has a time gets a corrected badge showing that
      time, placed where the pass put that segment's centre, however far
      the pass moved it. */
  lemma SeparatedBadgesLabelEverySegment(sweeps: seq<real>, times: seq<real>, gap: real, minSep: real, i: nat)
    requires i < |sweeps| && i < |times|
    ensures var sorted := SortByAngle(Pairs(sweeps, times, gap));
            exists j :: 0 <= j < |sorted| &&
              sorted[j] == Labelled(Centers(sweeps, gap)[i], times[i]) &&
              SeparatedBadges(sweeps, times, gap, minSep)[j] ==
                Badge(Separate(AnglesOf(sorted), minSep)[j], Trunc(times[i]))
  {
    var pairs := Pairs(sweeps, times, gap);
    var sorted := SortByAngle(pairs);
    var j := PermutedIndex(pairs, sorted, i);
    assert SeparatedBadges(sweeps, times, gap, minSep)[j] ==
             Badge(Separate(AnglesOf(sorted), minSep)[j], Trunc(times[i]));
  }

  /** Sorting the two candidates by angle keeps each time with its centre. */
  lemma SortTwoCandidates()
    ensures SortByAngle(Pairs([300.0, 30.0], [10.0, 1.0], 30.0)) ==
              [Labelled(60.0, 1.0), Labelled(255.0, 10.0)]
  {
    TwoSegmentCentres();
    var pairs := Pairs([300.0, 30.0], [10.0, 1.0], 30.0);
    assert pairs == [Labelled(255.0, 10.0), Labelled(60.0, 1.0)];
    assert pairs[1..] == [Labelled(60.0, 1.0)];
    assert [Labelled(60.0, 1.0)][1..] == [];
    assert SortByAngle([Labelled(60.0, 1.0)]) == [Labelled(60.0, 1.0)];
  }

  /** On the two-segment dial above the corrected badges show each time at
      its own segment's centre. */
  lemma BadgeLabelCorrected()
    ensures SeparatedBadges([300.0, 30.0], [10.0, 1.0], 30.0, 10.0) == [Badge(60.0, 1), Badge(255.0, 10)]
  {
    SortTwoCandidates();
    var sorted := [Labelled(60.0, 1.0), Labelled(255.0, 10.0)];
    var angles := AnglesOf(sorted);
    assert |angles| == 2 && angles[0] == 60.0 && angles[1] == 255.0;
    Rem360InTurn(195.0, 0);
    assert Spaced(angles, 10.0);
    SeparatedBadgesUnmoved([300.0, 30.0], [10.0, 1.0], 30.0, 10.0);
    assert Trunc(10.0) == 10 && Trunc(1.0) == 1;
    var r := SeparatedBadges([300.0, 30.0], [10.0, 1.0], 30.0, 10.0);
    assert |r| == 2 && r[0] == Badge(60.0, 1) && r[1] == Badge(255.0, 10);
  }
}
